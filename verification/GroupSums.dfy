/**
 What the document of `atcr debt group` says, counted from its items: which items each
 group holds, in which order the groups stand, and what they sum to.
 */
module GroupSums {
  import opened Basics
  import opened Orders
  import opened DebtFold
  import opened DebtRecord
  import opened DebtGroup

  function EstimateSum(items: seq<Record>): int {
    if items == [] then 0 else items[0].estMinutes + EstimateSum(items[1..])
  }

  lemma {:induction false} EstimateSnoc(items: seq<Record>, r: Record)
    ensures EstimateSum(items + [r]) == EstimateSum(items) + r.estMinutes
  {
    if items == [] {
      assert items + [r] == [r];
    } else {
      assert (items + [r])[1..] == items[1..] + [r];
      EstimateSnoc(items[1..], r);
    }
  }

  lemma {:induction false} EstimateConcat(a: seq<Record>, b: seq<Record>)
    ensures EstimateSum(a + b) == EstimateSum(a) + EstimateSum(b)
  {
    if a == [] {
      assert a + b == b;
    } else {
      assert (a + b)[1..] == a[1..] + b;
      EstimateConcat(a[1..], b);
    }
  }

  /** The sum does not depend on the order. */
  lemma {:induction false} EstimateOfPermutation(a: seq<Record>, b: seq<Record>)
    requires multiset(a) == multiset(b)
    ensures EstimateSum(a) == EstimateSum(b)
  {
    if a == [] {
      MemberOfPermutation(a, b);
    } else {
      var n := |a| - 1;
      assert a == a[..n] + [a[n]];
      var pre, post := TakeOut(a[..n], a[n], b);
      EstimateOfPermutation(a[..n], pre + post);
      EstimateSnoc(a[..n], a[n]);
      EstimateSnoc(pre, a[n]);
      EstimateConcat(pre, post);
      EstimateConcat(pre + [a[n]], post);
    }
  }

  lemma {:induction false} MinutesSum(items: seq<Record>)
    ensures Minutes(items) == EstimateSum(items)
  {
    if items != [] {
      var n := |items| - 1;
      MinutesSum(items[..n]);
      EstimateSnoc(items[..n], items[n]);
      assert items == items[..n] + [items[n]];
    }
  }

  /** A group counts its items, sums their estimates and is frontend work iff one of them is. */
  ghost predicate SaysItems(g: Grouping, gr: Group) {
    && gr.count == |gr.items| && gr.minutes == EstimateSum(gr.items)
    && (gr.frontend <==> exists i :: 0 <= i < |gr.items| && g.frontend(gr.items[i]))
  }

  /** The items of a theme that are not CRITICAL. */
  function InTheme(g: Grouping, t: string): Record -> bool { (r: Record) => !g.critical(r) && g.theme(r) == t }

  /** The CRITICAL group: all of them, in input order. */
  ghost predicate IsCriticalGroup(g: Grouping, recs: seq<Record>, gr: Group) {
    gr.theme == "critical" && gr.pattern == g.criticalPattern && gr.items != [] && gr.items == Filter(g.critical, recs) && SaysItems(g, gr)
  }

  /** A theme's group: all of its items, in input order, enough of them. */
  ghost predicate IsThemeGroup(g: Grouping, recs: seq<Record>, gr: Group) {
    gr.pattern == g.pattern(gr.theme) && gr.items == Filter(InTheme(g, gr.theme), recs) && |gr.items| >= g.minSize && SaysItems(g, gr)
  }

  /** A theme called `critical` comes before the others, which come by name. */
  predicate ThemeBefore(a: string, b: string) { b != "critical" && (a == "critical" || StringLess(a, b)) }

  /** An item stays ungrouped iff it is not CRITICAL and its theme has too few. */
  function StaysLoose(g: Grouping, recs: seq<Record>): Record -> bool {
    (r: Record) => !g.critical(r) && |Filter(InTheme(g, g.theme(r)), recs)| < g.minSize
  }

  lemma MembersInTheme(g: Grouping, recs: seq<Record>, t: string)
    ensures Members(g, Regular(g, recs), t) == Filter(InTheme(g, t), recs)
  {
    FilterTwice(OfTheme(g, t), (r: Record) => !g.critical(r), InTheme(g, t), recs);
  }

  lemma LooseIs(g: Grouping, recs: seq<Record>)
    ensures Ungrouped(g, recs) == Filter(StaysLoose(g, recs), recs)
  {
    var regular := Regular(g, recs);
    forall r ensures StaysLoose(g, recs)(r) == (Loose(g, regular)(r) && !g.critical(r)) { MembersInTheme(g, recs, g.theme(r)); }
    FilterTwice(Loose(g, regular), (r: Record) => !g.critical(r), StaysLoose(g, recs), recs);
  }

  lemma MadeSays(g: Grouping, theme: string, pattern: string, items: seq<Record>)
    ensures SaysItems(g, Made(g, theme, pattern, items))
  {
    MinutesSum(items);
  }

  lemma CriticalSays(g: Grouping, recs: seq<Record>)
    ensures var gs := CriticalGroup(g, recs);
            (gs == [] <==> Filter(g.critical, recs) == []) && |gs| <= 1 && (gs != [] ==> IsCriticalGroup(g, recs, gs[0]))
  {
    MadeSays(g, CRITICAL_THEME, g.criticalPattern, Filter(g.critical, recs));
  }

  lemma ThemeSays(g: Grouping, recs: seq<Record>, i: nat)
    requires i < |RegularGroups(g, Regular(g, recs))|
    ensures IsThemeGroup(g, recs, RegularGroups(g, Regular(g, recs))[i])
  {
    var regular := Regular(g, recs);
    var ts := Themes(g, regular);
    ThemesFacts(g, regular);
    MembersInTheme(g, recs, ts[i]);
    MadeSays(g, ts[i], g.pattern(ts[i]), Members(g, regular, ts[i]));
    assert ts[i] in ts;
  }

  lemma ThemesAscend(g: Grouping, regular: seq<Record>)
    ensures var ts := Themes(g, regular); forall i, j :: 0 <= i < j < |ts| ==> ThemeBefore(ts[i], ts[j])
  {
    var ts := Themes(g, regular);
    ThemesFacts(g, regular);
    StrictlySorted(ts);
    forall i, j | 0 <= i < j < |ts| ensures ThemeBefore(ts[i], ts[j]) { assert ThemeLess(ts[i], ts[j]); }
  }

  /** How many groups stand before the themes: one if there are CRITICAL items. */
  function Lead(g: Grouping, recs: seq<Record>): nat { if Filter(g.critical, recs) == [] then 0 else 1 }

  /** The document: the CRITICAL group if there is one, then each theme that is large enough, by name, then the rest. */
  lemma DocSays(g: Grouping, recs: seq<Record>)
    ensures var d, n := GroupedDoc(g, recs), Lead(g, recs);
            && n <= |d.groups| && (n == 1 ==> IsCriticalGroup(g, recs, d.groups[0]))
            && (forall i :: n <= i < |d.groups| ==> IsThemeGroup(g, recs, d.groups[i]))
            && (forall i, j :: n <= i < j < |d.groups| ==> ThemeBefore(d.groups[i].theme, d.groups[j].theme))
            && d.ungrouped == Filter(StaysLoose(g, recs), recs)
  {
    var crit, rest := CriticalGroup(g, recs), RegularGroups(g, Regular(g, recs));
    CriticalSays(g, recs);
    forall i | 0 <= i < |rest| ensures IsThemeGroup(g, recs, rest[i]) { ThemeSays(g, recs, i); }
    ThemesAscend(g, Regular(g, recs));
    LooseIs(g, recs);
  }

  function GroupMinutes(gs: seq<Group>): int { if gs == [] then 0 else GroupMinutes(gs[..|gs| - 1]) + gs[|gs| - 1].minutes }

  lemma {:induction false} GroupMinutesSum(gs: seq<Group>)
    requires forall i :: 0 <= i < |gs| ==> gs[i].minutes == EstimateSum(gs[i].items)
    ensures GroupMinutes(gs) == EstimateSum(Items(gs))
  {
    if gs != [] {
      var n := |gs| - 1;
      GroupMinutesSum(gs[..n]);
      EstimateConcat(Items(gs[..n]), gs[n].items);
    }
  }

  /** No estimate is lost or counted twice: the groups' minutes and the ungrouped items' are the input's. */
  lemma MinutesConserve(g: Grouping, recs: seq<Record>)
    ensures var d := GroupedDoc(g, recs); GroupMinutes(d.groups) + EstimateSum(d.ungrouped) == EstimateSum(recs)
  {
    var gs, loose := Groups(g, recs), Ungrouped(g, recs);
    forall i | 0 <= i < |gs| ensures gs[i].minutes == EstimateSum(gs[i].items) { MinutesSum(gs[i].items); }
    GroupMinutesSum(gs);
    GroupsPartition(g, recs);
    EstimateOfPermutation(Items(gs) + loose, recs);
    EstimateConcat(Items(gs), loose);
  }
}
