/**
 `atcr debt group`: open items clustered by theme, CRITICAL items in a group of their own
 (`groupDebt`). Every item lands in exactly one place, in its input order.
 */
module DebtGroup {
  import opened Basics
  import opened Orders
  import opened DebtFold
  import opened DebtRecord

  /**
   The grouping asked for: what is critical, what theme an item has, the smallest group, how
   a theme's path pattern is spelled and which items are frontend work.
   */
  datatype Grouping = Grouping(
    critical: Record -> bool,
    theme: Record -> string,
    minSize: int,
    pattern: string -> string,
    criticalPattern: string,
    frontend: Record -> bool)

  datatype Group = Group(theme: string, pattern: string, items: seq<Record>, count: int, minutes: int, frontend: bool)

  datatype Doc = Doc(groups: seq<Group>, ungrouped: seq<Record>, total: int, grouped: int, ungroupedCount: int, groupCount: int)

  const CRITICAL_THEME := "critical"

  function Minutes(items: seq<Record>): int {
    if items == [] then 0 else Minutes(items[..|items| - 1]) + items[|items| - 1].estMinutes
  }

  /** Some item is frontend work. */
  predicate AnyFrontend(g: Grouping, items: seq<Record>) { exists i :: 0 <= i < |items| && g.frontend(items[i]) }

  function Made(g: Grouping, theme: string, pattern: string, items: seq<Record>): Group {
    Group(theme, pattern, items, |items|, Minutes(items), AnyFrontend(g, items))
  }

  // ------------------------------------------------------------ specification

  /** The items that are not critical, in input order. */
  function Regular(g: Grouping, recs: seq<Record>): seq<Record> { Filter((r: Record) => !g.critical(r), recs) }

  function OfTheme(g: Grouping, t: string): Record -> bool { (r: Record) => g.theme(r) == t }

  function Members(g: Grouping, regular: seq<Record>, t: string): seq<Record> { Filter(OfTheme(g, t), regular) }

  predicate Large(g: Grouping, regular: seq<Record>, t: string) { |Members(g, regular, t)| >= g.minSize }

  function Loose(g: Grouping, regular: seq<Record>): Record -> bool { (r: Record) => !Large(g, regular, g.theme(r)) }

  /** The themes that form groups, in order of first appearance. */
  function LargeThemes(g: Grouping, recs: seq<Record>, n: nat): seq<string>
    requires n <= |recs|
  {
    if n == 0 then []
    else
      var before, r := LargeThemes(g, recs, n - 1), recs[n - 1];
      if Large(g, recs, g.theme(r)) && g.theme(r) !in before then before + [g.theme(r)] else before
  }

  /** A theme that is itself named `critical` comes first, the rest by name. */
  predicate ThemeLess(a: string, b: string) {
    if (a == CRITICAL_THEME) != (b == CRITICAL_THEME) then a == CRITICAL_THEME else StringLess(a, b)
  }

  function Themes(g: Grouping, recs: seq<Record>): seq<string> { StableSort(ThemeLess, LargeThemes(g, recs, |recs|)) }

  function ThemeGroups(g: Grouping, recs: seq<Record>, ts: seq<string>): (gs: seq<Group>)
    ensures |gs| == |ts| && forall i :: 0 <= i < |ts| ==> gs[i] == Made(g, ts[i], g.pattern(ts[i]), Members(g, recs, ts[i]))
  {
    if ts == [] then [] else ThemeGroups(g, recs, ts[..|ts| - 1]) + [Made(g, ts[|ts| - 1], g.pattern(ts[|ts| - 1]), Members(g, recs, ts[|ts| - 1]))]
  }

  function CriticalGroup(g: Grouping, recs: seq<Record>): seq<Group> {
    var items := Filter(g.critical, recs);
    if items == [] then [] else [Made(g, CRITICAL_THEME, g.criticalPattern, items)]
  }

  function RegularGroups(g: Grouping, regular: seq<Record>): seq<Group> { ThemeGroups(g, regular, Themes(g, regular)) }

  function Groups(g: Grouping, recs: seq<Record>): seq<Group> { CriticalGroup(g, recs) + RegularGroups(g, Regular(g, recs)) }

  function LooseItems(g: Grouping, regular: seq<Record>): seq<Record> { Filter(Loose(g, regular), regular) }

  function Ungrouped(g: Grouping, recs: seq<Record>): seq<Record> { LooseItems(g, Regular(g, recs)) }

  function Items(gs: seq<Group>): seq<Record> {
    if gs == [] then [] else Items(gs[..|gs| - 1]) + gs[|gs| - 1].items
  }

  function CountOf(gs: seq<Group>): int {
    if gs == [] then 0 else CountOf(gs[..|gs| - 1]) + gs[|gs| - 1].count
  }

  /** `groupDebt`. */
  function GroupedDoc(g: Grouping, recs: seq<Record>): Doc {
    var gs, loose := Groups(g, recs), Ungrouped(g, recs);
    Doc(gs, loose, |recs|, CountOf(gs), |loose|, |gs|)
  }

  // ---------------------------------------------------------------- conservation

  lemma ThemeLessIsTotal()
    ensures StrictTotal(ThemeLess)
  {
    StringLessIsTotal();
    forall x, y, z ensures WeakAt(ThemeLess, x, y, z) { StringLessWeak(x, y, z); }
  }

  lemma {:induction false} LargeThemesFacts(g: Grouping, recs: seq<Record>, n: nat)
    requires n <= |recs|
    ensures Distinct(LargeThemes(g, recs, n))
    ensures forall t :: t in LargeThemes(g, recs, n) ==> Large(g, recs, t)
    ensures forall i :: 0 <= i < n && Large(g, recs, g.theme(recs[i])) ==> g.theme(recs[i]) in LargeThemes(g, recs, n)
  {
    if n > 0 {
      LargeThemesFacts(g, recs, n - 1);
      DistinctSnoc(LargeThemes(g, recs, n - 1), g.theme(recs[n - 1]));
    }
  }

  /** Group themes are distinct, large enough and sorted; every large theme is among them. */
  lemma ThemesFacts(g: Grouping, recs: seq<Record>)
    ensures var ts := Themes(g, recs);
            && Distinct(ts) && Sorted(ThemeLess, ts)
            && (forall t :: t in ts ==> Large(g, recs, t))
            && (forall r :: r in recs && Large(g, recs, g.theme(r)) ==> g.theme(r) in ts)
  {
    var raw, ts := LargeThemes(g, recs, |recs|), Themes(g, recs);
    LargeThemesFacts(g, recs, |recs|);
    ThemeLessIsTotal();
    SortSorted(ThemeLess, raw);
    SortPermutes(ThemeLess, raw);
    SortMembers(ThemeLess, raw);
    DistinctMultiset(raw);
    DistinctMultiset(ts);
    forall r | r in recs && Large(g, recs, g.theme(r)) ensures g.theme(r) in ts {
      var i :| 0 <= i < |recs| && recs[i] == r;
    }
  }

  lemma {:induction false} ItemsConcat(a: seq<Group>, b: seq<Group>)
    ensures Items(a + b) == Items(a) + Items(b)
  {
    if b == [] {
      assert a + b == a;
    } else {
      assert (a + b)[..|a + b| - 1] == a + b[..|b| - 1];
      ItemsConcat(a, b[..|b| - 1]);
    }
  }

  lemma ItemsOfLast(g: Grouping, recs: seq<Record>, ts: seq<string>)
    requires ts != []
    ensures var n := |ts| - 1; Items(ThemeGroups(g, recs, ts)) == Items(ThemeGroups(g, recs, ts[..n])) + Members(g, recs, ts[n])
  {
    var n := |ts| - 1;
    assert ThemeGroups(g, recs, ts)[..n] == ThemeGroups(g, recs, ts[..n]);
  }

  /** How often an item occurs among the groups of the themes `ts`. */
  lemma {:induction false} ThemeOccurrences(g: Grouping, recs: seq<Record>, ts: seq<string>, x: Record)
    requires Distinct(ts)
    ensures multiset(Items(ThemeGroups(g, recs, ts)))[x] == if g.theme(x) in ts then multiset(recs)[x] else 0
  {
    if ts != [] {
      var n := |ts| - 1;
      var t := ts[n];
      ThemeOccurrences(g, recs, ts[..n], x);
      FilterMultiset(OfTheme(g, t), recs, x);
      assert ts == ts[..n] + [t] && t !in ts[..n];
      ItemsOfLast(g, recs, ts);
    }
  }

  lemma RegularPartition(g: Grouping, regular: seq<Record>)
    ensures multiset(Items(RegularGroups(g, regular))) + multiset(LooseItems(g, regular)) == multiset(regular)
  {
    ThemesFacts(g, regular);
    forall x ensures multiset(Items(RegularGroups(g, regular)))[x] + multiset(LooseItems(g, regular))[x] == multiset(regular)[x] {
      FilterMultiset(Loose(g, regular), regular, x);
      ThemeOccurrences(g, regular, Themes(g, regular), x);
      assert multiset(regular)[x] > 0 <==> x in regular;
    }
  }

  lemma CriticalOrRegular(g: Grouping, recs: seq<Record>)
    ensures multiset(Filter(g.critical, recs)) + multiset(Regular(g, recs)) == multiset(recs)
  {
    forall x ensures multiset(Filter(g.critical, recs))[x] + multiset(Regular(g, recs))[x] == multiset(recs)[x] {
      FilterMultiset(g.critical, recs, x);
      FilterMultiset((r: Record) => !g.critical(r), recs, x);
    }
  }

  /** The groups and the ungrouped items are a partition of the input. */
  lemma GroupsPartition(g: Grouping, recs: seq<Record>)
    ensures multiset(Items(Groups(g, recs))) + multiset(Ungrouped(g, recs)) == multiset(recs)
  {
    var crit := CriticalGroup(g, recs);
    ItemsConcat(crit, RegularGroups(g, Regular(g, recs)));
    assert Items(crit) == Filter(g.critical, recs) by { if crit != [] { assert crit[..0] == [] && [] + crit[0].items == crit[0].items; } }
    RegularPartition(g, Regular(g, recs));
    CriticalOrRegular(g, recs);
  }

  /** Sorted, distinct themes are strictly increasing. */
  lemma StrictlySorted(ts: seq<string>)
    requires Distinct(ts) && Sorted(ThemeLess, ts)
    ensures forall i, j :: 0 <= i < j < |ts| ==> ThemeLess(ts[i], ts[j])
  {
    ThemeLessIsTotal();
  }

  /**
   All CRITICAL items form one group; every other group holds exactly the regular items of
   one theme and is large enough; every ungrouped item's theme is too small; each part
   keeps the input order.
   */
  lemma GroupsAreThemes(g: Grouping, recs: seq<Record>)
    ensures Items(CriticalGroup(g, recs)) == Filter(g.critical, recs) && |CriticalGroup(g, recs)| <= 1
    ensures var regular := Regular(g, recs);
            var gs := RegularGroups(g, regular);
            && (forall i :: 0 <= i < |gs| ==> gs[i].items == Filter(OfTheme(g, gs[i].theme), regular) && |gs[i].items| >= g.minSize)
            && (forall i, j :: 0 <= i < j < |gs| ==> ThemeLess(gs[i].theme, gs[j].theme))
            && (forall r :: r in Ungrouped(g, recs) ==> |Filter(OfTheme(g, g.theme(r)), regular)| < g.minSize)
  {
    var crit, regular := CriticalGroup(g, recs), Regular(g, recs);
    if crit != [] { assert crit[..0] == [] && [] + crit[0].items == crit[0].items; }
    var ts := Themes(g, regular);
    ThemesFacts(g, regular);
    StrictlySorted(ts);
    FilterMembers(Loose(g, regular), regular);
    forall i | 0 <= i < |ts| ensures Large(g, regular, ts[i]) { assert ts[i] in ts; }
  }

  lemma {:induction false} CountIsItems(gs: seq<Group>)
    requires forall i :: 0 <= i < |gs| ==> gs[i].count == |gs[i].items|
    ensures CountOf(gs) == |Items(gs)|
  {
    if gs != [] { CountIsItems(gs[..|gs| - 1]); }
  }

  /** The summary adds up, even when a theme is itself named `critical`. */
  lemma SummaryAddsUp(g: Grouping, recs: seq<Record>)
    ensures var d := GroupedDoc(g, recs);
            d.total == |recs| && d.grouped + d.ungroupedCount == d.total && d.groupCount == |d.groups|
  {
    var gs := Groups(g, recs);
    CountIsItems(gs);
    GroupsPartition(g, recs);
    assert |multiset(Items(gs))| + |multiset(Ungrouped(g, recs))| == |multiset(recs)|;
  }

  // ------------------------------------------------------------- imperatively

  method SplitCritical(g: Grouping, recs: seq<Record>) returns (crit: seq<Record>, regular: seq<Record>)
    ensures crit == Filter(g.critical, recs) && regular == Regular(g, recs)
  {
    crit, regular := [], [];
    for i := 0 to |recs|
      invariant crit == Filter(g.critical, recs[..i]) && regular == Regular(g, recs[..i])
    {
      assert recs[..i + 1] == recs[..i] + [recs[i]];
      FilterSnoc(g.critical, recs[..i], recs[i]);
      FilterSnoc((r: Record) => !g.critical(r), recs[..i], recs[i]);
      if g.critical(recs[i]) {
        crit := crit + [recs[i]];
      } else {
        regular := regular + [recs[i]];
      }
    }
    assert recs[..|recs|] == recs;
  }

  ghost predicate Counts(g: Grouping, regular: seq<Record>, counts: map<string, int>) {
    forall t :: (if t in counts then counts[t] else 0) == |Members(g, regular, t)|
  }

  method CountThemes(g: Grouping, regular: seq<Record>) returns (counts: map<string, int>)
    ensures Counts(g, regular, counts)
  {
    counts := map[];
    for i := 0 to |regular|
      invariant Counts(g, regular[..i], counts)
    {
      assert regular[..i + 1] == regular[..i] + [regular[i]];
      forall t { FilterSnoc(OfTheme(g, t), regular[..i], regular[i]); }
      counts := Bump(counts, g.theme(regular[i]));
    }
    assert regular[..|regular|] == regular;
  }

  /** The groups under construction after the first `n` regular items. */
  ghost predicate Building(g: Grouping, regular: seq<Record>, n: nat, byTheme: map<string, seq<Record>>, names: seq<string>)
    requires n <= |regular|
  {
    && names == LargeThemes(g, regular, n) && byTheme.Keys == ToSet(names)
    && forall t :: t in byTheme ==> byTheme[t] == Members(g, regular[..n], t)
  }

  lemma NothingYet(g: Grouping, regular: seq<Record>, n: nat, t: string)
    requires n <= |regular| && Large(g, regular, t) && t !in LargeThemes(g, regular, n)
    ensures Members(g, regular[..n], t) == []
  {
    LargeThemesFacts(g, regular, n);
    forall r | r in regular[..n] ensures !OfTheme(g, t)(r) {
      var i :| 0 <= i < n && regular[i] == r;
    }
    FilterNone(OfTheme(g, t), regular[..n]);
  }

  lemma MembersSnoc(g: Grouping, regular: seq<Record>, i: nat, u: string)
    requires i < |regular|
    ensures Members(g, regular[..i + 1], u) ==
            if g.theme(regular[i]) == u then Members(g, regular[..i], u) + [regular[i]] else Members(g, regular[..i], u)
  {
    assert regular[..i + 1] == regular[..i] + [regular[i]];
    FilterSnoc(OfTheme(g, u), regular[..i], regular[i]);
  }

  /** One item joins its theme's group, which it may open. */
  method Join(g: Grouping, regular: seq<Record>, i: nat, byTheme: map<string, seq<Record>>, names: seq<string>)
    returns (byTheme': map<string, seq<Record>>, names': seq<string>)
    requires i < |regular| && Large(g, regular, g.theme(regular[i])) && Building(g, regular, i, byTheme, names)
    ensures Building(g, regular, i + 1, byTheme', names')
  {
    var t := g.theme(regular[i]);
    assert t in byTheme <==> t in ToSet(names);
    names' := names;
    var before: seq<Record> := [];
    if t in byTheme {
      before := byTheme[t];
    } else {
      NothingYet(g, regular, i, t);
      names' := names + [t];
    }
    DistinctSnoc(names, t);
    byTheme' := byTheme[t := before + [regular[i]]];
    forall u | u in byTheme' ensures byTheme'[u] == Members(g, regular[..i + 1], u) { MembersSnoc(g, regular, i, u); }
  }

  lemma StaysOut(g: Grouping, regular: seq<Record>, i: nat, byTheme: map<string, seq<Record>>, names: seq<string>)
    requires i < |regular| && !Large(g, regular, g.theme(regular[i])) && Building(g, regular, i, byTheme, names)
    ensures Building(g, regular, i + 1, byTheme, names)
  {
    LargeThemesFacts(g, regular, i);
    forall u { MembersSnoc(g, regular, i, u); }
    assert forall t :: t in byTheme ==> t in ToSet(names);
  }

  /** The pass that puts each item in its group or leaves it loose. */
  method Distribute(g: Grouping, regular: seq<Record>, counts: map<string, int>)
    returns (byTheme: map<string, seq<Record>>, names: seq<string>, loose: seq<Record>)
    requires Counts(g, regular, counts)
    ensures Building(g, regular, |regular|, byTheme, names) && loose == LooseItems(g, regular)
  {
    byTheme, names, loose := map[], [], [];
    for i := 0 to |regular|
      invariant Building(g, regular, i, byTheme, names) && loose == Filter(Loose(g, regular), regular[..i])
    {
      var r := regular[i];
      var t := g.theme(r);
      assert regular[..i + 1] == regular[..i] + [r];
      FilterSnoc(Loose(g, regular), regular[..i], r);
      if (if t in counts then counts[t] else 0) < g.minSize {
        StaysOut(g, regular, i, byTheme, names);
        loose := loose + [r];
      } else {
        byTheme, names := Join(g, regular, i, byTheme, names);
      }
    }
    assert regular[..|regular|] == regular;
  }

  method SumItems(g: Grouping, items: seq<Record>) returns (m: int, frontend: bool)
    ensures m == Minutes(items) && frontend == AnyFrontend(g, items)
  {
    m, frontend := 0, false;
    for i := 0 to |items|
      invariant m == Minutes(items[..i]) && (frontend <==> exists k :: 0 <= k < i && g.frontend(items[k]))
    {
      assert items[..i + 1][..i] == items[..i];
      m := m + items[i].estMinutes;
      frontend := frontend || g.frontend(items[i]);
    }
    assert items[..|items|] == items;
  }

  /** The groups of the given themes, in that order. */
  method MakeGroups(g: Grouping, regular: seq<Record>, byTheme: map<string, seq<Record>>, ts: seq<string>) returns (groups: seq<Group>)
    requires forall i :: 0 <= i < |ts| ==> ts[i] in byTheme && byTheme[ts[i]] == Members(g, regular, ts[i])
    ensures groups == ThemeGroups(g, regular, ts)
  {
    groups := [];
    for i := 0 to |ts|
      invariant |groups| == i && forall j :: 0 <= j < i ==> groups[j] == Made(g, ts[j], g.pattern(ts[j]), byTheme[ts[j]])
    {
      var items := byTheme[ts[i]];
      var m, frontend := SumItems(g, items);
      groups := groups + [Group(ts[i], g.pattern(ts[i]), items, |items|, m, frontend)];
    }
  }

  method CollectGroups(g: Grouping, regular: seq<Record>, byTheme: map<string, seq<Record>>, names: seq<string>) returns (groups: seq<Group>)
    requires Building(g, regular, |regular|, byTheme, names)
    ensures groups == RegularGroups(g, regular)
  {
    assert regular[..|regular|] == regular;
    var sorted := StableSort(ThemeLess, names);
    SortMembers(ThemeLess, names);
    forall i | 0 <= i < |sorted| ensures sorted[i] in byTheme {
      assert sorted[i] in names;
      assert sorted[i] in ToSet(names);
    }
    groups := MakeGroups(g, regular, byTheme, sorted);
  }

  method SumCounts(groups: seq<Group>) returns (n: int)
    ensures n == CountOf(groups)
  {
    n := 0;
    for i := 0 to |groups|
      invariant n == CountOf(groups[..i])
    {
      assert groups[..i + 1][..i] == groups[..i];
      n := n + groups[i].count;
    }
    assert groups[..|groups|] == groups;
  }

  /** `groupDebt`. */
  method GroupDebt(g: Grouping, recs: seq<Record>) returns (doc: Doc)
    ensures doc == GroupedDoc(g, recs)
  {
    var crit, regular := SplitCritical(g, recs);
    var counts := CountThemes(g, regular);
    var byTheme, names, loose := Distribute(g, regular, counts);
    var groups := CollectGroups(g, regular, byTheme, names);
    if |crit| > 0 {
      var m, frontend := SumItems(g, crit);
      groups := [Group(CRITICAL_THEME, g.criticalPattern, crit, |crit|, m, frontend)] + groups;
    } else {
      assert [] + groups == groups;
    }
    var grouped := SumCounts(groups);
    return Doc(groups, loose, |recs|, grouped, |loose|, |groups|);
  }
}
