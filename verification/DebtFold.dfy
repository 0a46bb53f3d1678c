/**
 The debt store's fold: an append-only list of records becomes one effective record per
 finding (`foldByID`, `FoldRecords`, `FoldSummaries`). One precedence rule serves full
 records and the small summaries selection works on.
 */
module DebtFold {
  import opened Basics
  import opened Orders

  // ------------------------------------------------------------------ status

  datatype Mark = Resolved | Deferred | Wontfix | Unreproducible | AttemptsExhausted

  /** A status as its normalized reading: absent, one of the five marks, or any other text. */
  datatype Status = Unset | Marked(mark: Mark) | Other(text: string)

  predicate IsClosed(s: Status) { s.Marked? }

  predicate IsSuppressing(s: Status) { s == Marked(Wontfix) }

  predicate IsSettled(s: Status) {
    s == Marked(Resolved) || s == Marked(Wontfix) || s == Marked(Unreproducible)
  }

  predicate BearsRationale(s: Status) { IsSettled(s) || s == Marked(AttemptsExhausted) }

  function ClosedRank(s: Status): int {
    match s
    case Marked(Wontfix) => 5
    case Marked(Unreproducible) => 4
    case Marked(AttemptsExhausted) => 3
    case Marked(Resolved) => 2
    case Marked(Deferred) => 1
    case _ => 0
  }

  function Precedence(s: Status): int {
    if IsSettled(s) then 10 + ClosedRank(s) else ClosedRank(s)
  }

  // ------------------------------------------------------------- precedence

  /** What the precedence rule reads of an item. */
  datatype Entry = Entry(status: Status, stamp: string)

  /** Which timestamps parse as RFC 3339. */
  type Clock = string -> bool

  /** A later item of the group takes the lead: newer, or not below it at one instant, or not comparable. */
  predicate Displaces(valid: Clock, it: Entry, cur: Entry) {
    || !valid(it.stamp) || !valid(cur.stamp)
    || StringLess(cur.stamp, it.stamp)
    || (it.stamp == cur.stamp && Precedence(it.status) >= Precedence(cur.status))
  }

  /** `latestIndex` over the items that satisfy `p`, as an index into the whole group. */
  function LatestWhere<T>(valid: Clock, entry: T -> Entry, p: T -> bool, group: seq<T>): (r: Option<nat>)
    ensures r.Some? ==> r.value < |group| && p(group[r.value])
  {
    if group == [] then None
    else
      var n := |group| - 1;
      var best := LatestWhere(valid, entry, p, group[..n]);
      if p(group[n]) && (best.None? || Displaces(valid, entry(group[n]), entry(group[best.value]))) then Some(n)
      else best
  }

  /** The scan comes back empty exactly when nothing satisfies `p`. */
  lemma {:induction false} LatestFinds<T>(valid: Clock, entry: T -> Entry, p: T -> bool, group: seq<T>)
    ensures LatestWhere(valid, entry, p, group).None? <==> forall i :: 0 <= i < |group| ==> !p(group[i])
  {
    if group != [] {
      var n := |group| - 1;
      LatestFinds(valid, entry, p, group[..n]);
      assert forall i :: 0 <= i < n ==> group[..n][i] == group[i];
    }
  }

  /** Strictly ahead: a later timestamp, or a higher precedence at the same one. */
  predicate Ahead(a: Entry, b: Entry) {
    StringLess(b.stamp, a.stamp) || (a.stamp == b.stamp && Precedence(a.status) > Precedence(b.status))
  }

  /** The last of the foremost items satisfying `p`. */
  ghost predicate IsLastMaximum<T>(entry: T -> Entry, p: T -> bool, group: seq<T>, i: nat) {
    && i < |group| && p(group[i])
    && forall j :: 0 <= j < |group| && p(group[j]) ==>
         !Ahead(entry(group[j]), entry(group[i])) && (j > i ==> Ahead(entry(group[i]), entry(group[j])))
  }

  lemma AheadIsWeak(a: Entry, b: Entry, c: Entry)
    ensures !(Ahead(a, b) && Ahead(b, a)) && !Ahead(a, a)
    ensures !Ahead(b, a) && !Ahead(c, b) ==> !Ahead(c, a)
    ensures Ahead(a, b) && !Ahead(c, b) ==> Ahead(a, c)
    ensures !Ahead(b, a) && Ahead(b, c) ==> Ahead(a, c)
    ensures a.stamp == b.stamp || StringLess(a.stamp, b.stamp) || StringLess(b.stamp, a.stamp)
  {
    StringLessTotal(a.stamp, b.stamp);
    StringLessTotal(b.stamp, c.stamp);
    StringLessTotal(a.stamp, c.stamp);
    StringLessWeak(a.stamp, b.stamp, c.stamp);
    StringLessWeak(c.stamp, b.stamp, a.stamp);
    StringLessWeak(a.stamp, b.stamp, a.stamp);
    StringLessWeak(c.stamp, a.stamp, b.stamp);
    StringLessWeak(b.stamp, c.stamp, b.stamp);
    StringLessWeak(b.stamp, a.stamp, c.stamp);
  }

  ghost predicate ValidStamps<T>(valid: Clock, entry: T -> Entry, group: seq<T>) {
    forall i :: 0 <= i < |group| ==> valid(entry(group[i]).stamp)
  }

  lemma DisplacesIsNotBehind(valid: Clock, it: Entry, cur: Entry)
    requires valid(it.stamp) && valid(cur.stamp)
    ensures Displaces(valid, it, cur) <==> !Ahead(cur, it)
  {
    AheadIsWeak(it, cur, it);
  }

  /** Adding one item: the lead stays or passes to it, and stays the last maximum. */
  lemma LeadStep<T>(valid: Clock, entry: T -> Entry, p: T -> bool, group: seq<T>, x: T, best: nat)
    requires IsLastMaximum(entry, p, group, best) && p(x) && valid(entry(x).stamp) && valid(entry(group[best]).stamp)
    ensures IsLastMaximum(entry, p, group + [x], if Displaces(valid, entry(x), entry(group[best])) then |group| else best)
  {
    var all, lead, last := group + [x], entry(group[best]), entry(x);
    DisplacesIsNotBehind(valid, last, lead);
    AheadIsWeak(last, last, last);
    forall j | 0 <= j < |group| && p(group[j]) ensures !Ahead(lead, last) ==> !Ahead(entry(group[j]), last) {
      AheadIsWeak(last, lead, entry(group[j]));
    }
    assert all[|group|] == x && forall j :: 0 <= j < |group| ==> all[j] == group[j];
  }

  lemma LeadSkips<T>(entry: T -> Entry, p: T -> bool, group: seq<T>, x: T, best: nat)
    requires IsLastMaximum(entry, p, group, best) && !p(x)
    ensures IsLastMaximum(entry, p, group + [x], best)
  {
  }

  lemma LeadAlone<T>(entry: T -> Entry, p: T -> bool, group: seq<T>, x: T)
    requires p(x) && forall i :: 0 <= i < |group| ==> !p(group[i])
    ensures IsLastMaximum(entry, p, group + [x], |group|)
  {
    AheadIsWeak(entry(x), entry(x), entry(x));
  }

  /** On comparable timestamps the sequential scan finds the last maximum. */
  lemma {:induction false} LatestIsLastMaximum<T>(valid: Clock, entry: T -> Entry, p: T -> bool, group: seq<T>)
    requires ValidStamps(valid, entry, group)
    ensures var r := LatestWhere(valid, entry, p, group); r.Some? ==> IsLastMaximum(entry, p, group, r.value)
  {
    if group != [] {
      var n := |group| - 1;
      var pre := group[..n];
      assert group == pre + [group[n]];
      LatestIsLastMaximum(valid, entry, p, pre);
      var best := LatestWhere(valid, entry, p, pre);
      LatestFinds(valid, entry, p, pre);
      if best.None? {
        if p(group[n]) { LeadAlone(entry, p, pre, group[n]); }
      } else if p(group[n]) {
        LeadStep(valid, entry, p, pre, group[n], best.value);
      } else {
        LeadSkips(entry, p, pre, group[n], best.value);
      }
    }
  }

  /** There is only one last maximum. */
  lemma LastMaximumIsUnique<T>(entry: T -> Entry, p: T -> bool, group: seq<T>, i: nat, j: nat)
    requires IsLastMaximum(entry, p, group, i) && IsLastMaximum(entry, p, group, j)
    ensures i == j
  {
  }

  /** Nothing behind the scan's winner displaces it. */
  lemma {:induction false} WinnerIsNotDisplaced<T>(valid: Clock, entry: T -> Entry, p: T -> bool, group: seq<T>, e: nat, j: nat)
    requires LatestWhere(valid, entry, p, group) == Some(e) && e < j < |group| && p(group[j])
    ensures !Displaces(valid, entry(group[j]), entry(group[e]))
  {
    var n := |group| - 1;
    if j < n { WinnerIsNotDisplaced(valid, entry, p, group[..n], e, j); }
  }

  lemma {:induction false} LatestOfProjection<A, B>(valid: Clock, f: A -> B, entryA: A -> Entry, pA: A -> bool, entryB: B -> Entry, pB: B -> bool, group: seq<A>)
    requires forall x :: x in group ==> entryA(x) == entryB(f(x)) && pA(x) == pB(f(x))
    ensures LatestWhere(valid, entryB, pB, Map(f, group)) == LatestWhere(valid, entryA, pA, group)
  {
    if group != [] {
      var n := |group| - 1;
      LatestOfProjection(valid, f, entryA, pA, entryB, pB, group[..n]);
      assert Map(f, group)[..n] == Map(f, group[..n]);
    }
  }

  // -------------------------------------------------------------- fold by id

  /** How an item shows itself to the fold; `blank` is its zero value. */
  datatype Foldable<!T> = Foldable(id: T -> string, entry: T -> Entry, blank: T)

  /** The ids in order of first appearance. */
  function Ids<T>(d: Foldable<T>, items: seq<T>): seq<string> {
    if items == [] then []
    else
      var before, id := Ids(d, items[..|items| - 1]), d.id(items[|items| - 1]);
      if id in before then before else before + [id]
  }

  function GroupOf<T>(d: Foldable<T>, items: seq<T>, id: string): seq<T> {
    Filter((x: T) => d.id(x) == id, items)
  }

  predicate Suppresses<T>(d: Foldable<T>, x: T) { IsSuppressing(d.entry(x).status) }

  /** `foldIndex`: a suppressing record wins whatever its age; otherwise the latest does. */
  function FoldIndex<T>(valid: Clock, d: Foldable<T>, group: seq<T>): (i: nat)
    requires group != []
    ensures i < |group|
  {
    var kept := LatestWhere(valid, d.entry, (x: T) => Suppresses(d, x), group);
    if kept.Some? then kept.value
    else
      var latest := LatestWhere(valid, d.entry, (x: T) => true, group);
      latest.value
  }

  function Pick<T>(valid: Clock, d: Foldable<T>, group: seq<T>): T {
    if group == [] then d.blank else group[FoldIndex(valid, d, group)]
  }

  lemma {:induction false} IdsFacts<T>(d: Foldable<T>, items: seq<T>)
    ensures Distinct(Ids(d, items))
    ensures forall k :: k in Ids(d, items) <==> exists i :: 0 <= i < |items| && d.id(items[i]) == k
  {
    if items != [] {
      var n := |items| - 1;
      IdsFacts(d, items[..n]);
      DistinctSnoc(Ids(d, items[..n]), d.id(items[n]));
      forall k ensures k in Ids(d, items) <==> exists i :: 0 <= i < |items| && d.id(items[i]) == k {
        if i :| 0 <= i < n && d.id(items[..n][i]) == k { assert items[i] == items[..n][i]; }
        if i :| 0 <= i < n && d.id(items[i]) == k { assert items[i] == items[..n][i]; }
      }
    }
  }

  lemma GroupMembers<T>(d: Foldable<T>, items: seq<T>, k: string)
    ensures k in Ids(d, items) <==> GroupOf(d, items, k) != []
    ensures forall i :: 0 <= i < |GroupOf(d, items, k)| ==> d.id(GroupOf(d, items, k)[i]) == k && GroupOf(d, items, k)[i] in items
  {
    var mine := (x: T) => d.id(x) == k;
    var g := GroupOf(d, items, k);
    IdsFacts(d, items);
    FilterMembers(mine, items);
    forall i | 0 <= i < |g| ensures d.id(g[i]) == k && g[i] in items { assert g[i] in g; }
    if k in Ids(d, items) {
      var i :| 0 <= i < |items| && d.id(items[i]) == k;
      assert items[i] in g;
    }
    if g != [] {
      assert g[0] in items;
      var i :| 0 <= i < |items| && items[i] == g[0];
    }
  }

  lemma FilterSnoc<T>(p: T -> bool, s: seq<T>, x: T)
    ensures Filter(p, s + [x]) == if p(x) then Filter(p, s) + [x] else Filter(p, s)
  {
    FilterConcat(p, s, [x]);
    FilterCons(p, x, []);
    assert [x] + [] == [x];
    assert Filter(p, s) + [] == Filter(p, s);
  }

  /** The items of the wanted ids, in order. */
  function OfWanted<T>(id: T -> string, wanted: string -> bool, items: seq<T>): seq<T> {
    Filter((x: T) => wanted(id(x)), items)
  }

  /** Dropping whole ids drops them from the id list and leaves the other groups alone. */
  lemma {:induction false} IdsOfWanted<T>(d: Foldable<T>, wanted: string -> bool, items: seq<T>)
    ensures Ids(d, OfWanted(d.id, wanted, items)) == Filter(wanted, Ids(d, items))
  {
    if items != [] {
      var n := |items| - 1;
      var id := d.id(items[n]);
      IdsOfWanted(d, wanted, items[..n]);
      assert items == items[..n] + [items[n]];
      WantedSnoc(d.id, wanted, items[..n], items[n]);
      FilterSnoc(wanted, Ids(d, items[..n]), id);
      FilterIn(wanted, Ids(d, items[..n]), id);
      var kept := OfWanted(d.id, wanted, items[..n]);
      assert (kept + [items[n]])[..|kept|] == kept;
    }
  }

  lemma WantedSnoc<T>(id: T -> string, wanted: string -> bool, items: seq<T>, x: T)
    ensures OfWanted(id, wanted, items + [x]) ==
            if wanted(id(x)) then OfWanted(id, wanted, items) + [x] else OfWanted(id, wanted, items)
  {
    FilterSnoc((y: T) => wanted(id(y)), items, x);
  }

  lemma WantedMembers<T>(id: T -> string, wanted: string -> bool, items: seq<T>)
    ensures forall x :: x in OfWanted(id, wanted, items) <==> x in items && wanted(id(x))
  {
    FilterMembers((x: T) => wanted(id(x)), items);
  }

  lemma GroupOfWanted<T>(d: Foldable<T>, wanted: string -> bool, items: seq<T>, k: string)
    requires wanted(k)
    ensures GroupOf(d, OfWanted(d.id, wanted, items), k) == GroupOf(d, items, k)
  {
    var mine := (x: T) => d.id(x) == k;
    FilterTwice(mine, (x: T) => wanted(d.id(x)), mine, items);
  }

  lemma {:induction false} IdsOfProjection<A, B>(da: Foldable<A>, db: Foldable<B>, f: A -> B, items: seq<A>)
    requires forall x :: x in items ==> da.id(x) == db.id(f(x))
    ensures Ids(db, Map(f, items)) == Ids(da, items)
  {
    if items != [] {
      var n := |items| - 1;
      IdsOfProjection(da, db, f, items[..n]);
      assert Map(f, items)[..n] == Map(f, items[..n]);
    }
  }

  lemma GroupOfProjection<A, B>(da: Foldable<A>, db: Foldable<B>, f: A -> B, items: seq<A>, k: string)
    requires forall x :: x in items ==> da.id(x) == db.id(f(x))
    ensures GroupOf(db, Map(f, items), k) == Map(f, GroupOf(da, items, k))
  {
    FilterMap(f, (y: B) => db.id(y) == k, (x: A) => da.id(x) == k, items);
  }

  /** The precedence rule sees only ids, statuses and timestamps, so it commutes with projections. */
  lemma PickOfProjection<A, B>(valid: Clock, da: Foldable<A>, db: Foldable<B>, f: A -> B, group: seq<A>)
    requires group != [] && forall x :: x in group ==> da.entry(x) == db.entry(f(x))
    ensures FoldIndex(valid, db, Map(f, group)) == FoldIndex(valid, da, group)
    ensures Pick(valid, db, Map(f, group)) == f(Pick(valid, da, group))
  {
    LatestOfProjection(valid, f, da.entry, (x: A) => Suppresses(da, x), db.entry, (y: B) => Suppresses(db, y), group);
    LatestOfProjection(valid, f, da.entry, (x: A) => true, db.entry, (y: B) => true, group);
  }

  // ------------------------------------------------- one result per id

  /** `fold` applied to each id's group, in order of first appearance. */
  function MapGroups<T, R>(d: Foldable<T>, fold: seq<T> -> R, items: seq<T>): (r: seq<R>)
    ensures |r| == |Ids(d, items)|
    ensures forall i :: 0 <= i < |r| ==> r[i] == fold(GroupOf(d, items, Ids(d, items)[i]))
  {
    Map((k: string) => fold(GroupOf(d, items, k)), Ids(d, items))
  }

  lemma GroupOfConcat<T>(d: Foldable<T>, a: seq<T>, b: seq<T>, k: string)
    ensures GroupOf(d, a + b, k) == GroupOf(d, a, k) + GroupOf(d, b, k)
  {
    FilterConcat((x: T) => d.id(x) == k, a, b);
  }

  ghost predicate OfOneId<T>(d: Foldable<T>, group: seq<T>, k: string) {
    forall i :: 0 <= i < |group| ==> d.id(group[i]) == k
  }

  lemma GroupOfBlock<T>(d: Foldable<T>, pre: seq<T>, block: seq<T>, k: string, x: string)
    requires OfOneId(d, block, k)
    ensures GroupOf(d, pre + block, x) == if x == k then GroupOf(d, pre, x) + block else GroupOf(d, pre, x)
  {
    var mine := (y: T) => d.id(y) == x;
    FilterConcat(mine, pre, block);
    if x == k {
      FilterAll(mine, block);
    } else {
      FilterNone(mine, block);
      assert GroupOf(d, pre, x) + [] == GroupOf(d, pre, x);
    }
  }

  /** The result for a group carries the group's id. */
  ghost predicate KeepsId<T(!new), R>(d: Foldable<T>, fold: seq<T> -> R, rid: R -> string) {
    forall g, k :: g != [] && OfOneId(d, g, k) ==> rid(fold(g)) == k
  }

  lemma GroupsAreOnePerId<T(!new), R>(d: Foldable<T>, fold: seq<T> -> R, rid: R -> string, items: seq<T>)
    requires KeepsId(d, fold, rid)
    ensures Map(rid, MapGroups(d, fold, items)) == Ids(d, items)
    ensures Distinct(Ids(d, items))
  {
    IdsFacts(d, items);
    var ids := Ids(d, items);
    forall i | 0 <= i < |ids| ensures rid(MapGroups(d, fold, items)[i]) == ids[i] {
      GroupMembers(d, items, ids[i]);
      assert OfOneId(d, GroupOf(d, items, ids[i]), ids[i]);
    }
  }

  lemma MapSame<A, B>(f: A -> B, g: A -> B, s: seq<A>)
    requires forall x :: x in s ==> f(x) == g(x)
    ensures Map(f, s) == Map(g, s)
  {
  }

  /** Folding only the wanted ids' items is folding everything and keeping the wanted ids. */
  lemma GroupsOfWanted<T(!new), R>(d: Foldable<T>, fold: seq<T> -> R, rid: R -> string, wanted: string -> bool, items: seq<T>)
    requires KeepsId(d, fold, rid)
    ensures MapGroups(d, fold, OfWanted(d.id, wanted, items)) == OfWanted(rid, wanted, MapGroups(d, fold, items))
  {
    var some := OfWanted(d.id, wanted, items);
    var ids := Ids(d, items);
    var foldAll := (k: string) => fold(GroupOf(d, items, k));
    var foldSome := (k: string) => fold(GroupOf(d, some, k));
    IdsOfWanted(d, wanted, items);
    forall k | k in ids ensures rid(foldAll(k)) == k {
      GroupMembers(d, items, k);
      assert OfOneId(d, GroupOf(d, items, k), k);
    }
    FilterMap(foldAll, (r: R) => wanted(rid(r)), wanted, ids);
    FilterMembers(wanted, ids);
    forall k | k in Filter(wanted, ids) ensures foldSome(k) == foldAll(k) { GroupOfWanted(d, wanted, items, k); }
    MapSame(foldSome, foldAll, Filter(wanted, ids));
  }

  // ------------------------------------------------------- the loops of the fold

  /** `newestAnnotatedIndex` and both arms of `foldIndex`: collect the marked items, then scan them. */
  method ScanWhere<T>(valid: Clock, entry: T -> Entry, p: T -> bool, group: seq<T>) returns (r: Option<nat>)
    ensures r == LatestWhere(valid, entry, p, group)
  {
    r := None;
    for i := 0 to |group|
      invariant r == LatestWhere(valid, entry, p, group[..i])
    {
      assert group[..i + 1][..i] == group[..i];
      if p(group[i]) {
        if r.None? {
          r := Some(i);
        } else if Displaces(valid, entry(group[i]), entry(group[r.value])) {
          r := Some(i);
        }
      }
    }
    assert group[..|group|] == group;
  }

  /** The ids in order and their groups, in one pass over the items. */
  method Grouping<T>(d: Foldable<T>, items: seq<T>) returns (order: seq<string>, byID: map<string, seq<T>>)
    ensures order == Ids(d, items) && byID.Keys == ToSet(order)
    ensures forall k :: k in byID ==> byID[k] == GroupOf(d, items, k)
  {
    order, byID := [], map[];
    for i := 0 to |items|
      invariant order == Ids(d, items[..i]) && byID.Keys == ToSet(order)
      invariant forall k :: k in byID ==> byID[k] == GroupOf(d, items[..i], k)
    {
      var id := d.id(items[i]);
      assert items[..i + 1] == items[..i] + [items[i]] && items[..i + 1][..i] == items[..i];
      forall k ensures GroupOf(d, items[..i + 1], k) == if id == k then GroupOf(d, items[..i], k) + [items[i]] else GroupOf(d, items[..i], k) {
        FilterSnoc((x: T) => d.id(x) == k, items[..i], items[i]);
      }
      GroupMembers(d, items[..i], id);
      if id !in byID {
        order := order + [id];
        byID := byID[id := []];
      }
      byID := byID[id := byID[id] + [items[i]]];
    }
    assert items[..|items|] == items;
  }
}
