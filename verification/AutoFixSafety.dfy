/**
 Which fixes `--auto-fix` selects (`selectAutoFixEntries`), and exactly which selections a
 revert can undo. The selection compares raw paths; apply and revert work on cleaned ones.
 */
module AutoFixSafety {
  import opened Basics
  import opened Orders
  import opened AutoFix

  // ------------------------------------------------------------------ selection

  /** A fix parses into entries or is skipped; only fixes at or above the threshold count. */
  datatype Finding = Finding(fix: Option<seq<FileEntry>>, eligible: bool, review: string)

  /** An entry and what the diff-smell gate said of the fix it comes from. */
  datatype Offer = Offer(entry: FileEntry, review: string)

  datatype ReviewFlag = ReviewFlag(path: string, reason: string)

  function OffersOf(f: Finding, fes: seq<FileEntry>): (os: seq<Offer>)
    ensures |os| == |fes|
  {
    if fes == [] then [] else OffersOf(f, fes[..|fes| - 1]) + [Offer(fes[|fes| - 1], f.review)]
  }

  lemma OffersSnoc(f: Finding, fes: seq<FileEntry>, j: nat, offered: seq<Offer>)
    requires j < |fes|
    ensures offered + OffersOf(f, fes[..j + 1]) == (offered + OffersOf(f, fes[..j])) + [Offer(fes[j], f.review)]
  {
    assert fes[..j + 1][..j] == fes[..j];
  }

  function Offered(findings: seq<Finding>): seq<Offer> {
    if findings == [] then []
    else
      var before, f := Offered(findings[..|findings| - 1]), findings[|findings| - 1];
      if f.eligible && f.fix.Some? then before + OffersOf(f, f.fix.value) else before
  }

  function Paths(es: seq<FileEntry>): (ps: seq<string>)
    ensures |ps| == |es| && forall i :: 0 <= i < |es| ==> ps[i] == es[i].path
  {
    Map((e: FileEntry) => e.path, es)
  }

  function Entries(os: seq<Offer>): (es: seq<FileEntry>)
    ensures |es| == |os| && forall i :: 0 <= i < |os| ==> es[i] == os[i].entry
  {
    Map((o: Offer) => o.entry, os)
  }

  /** One flag per selected entry whose fix the gate annotated. */
  function Flags(os: seq<Offer>): seq<ReviewFlag> {
    if os == [] then []
    else
      var before, o := Flags(os[..|os| - 1]), os[|os| - 1];
      if o.review != "" then before + [ReviewFlag(o.entry.path, o.review)] else before
  }

  /** The first offer of each raw path. */
  function FirstPerPath(os: seq<Offer>): (r: seq<Offer>)
    ensures |r| <= |os|
  {
    if os == [] then []
    else
      var before, o := FirstPerPath(os[..|os| - 1]), os[|os| - 1];
      if o.entry.path in Paths(Entries(before)) then before else before + [o]
  }

  function Selected(findings: seq<Finding>): seq<FileEntry> {
    Entries(FirstPerPath(Offered(findings)))
  }

  lemma EntriesSnoc(os: seq<Offer>, o: Offer)
    ensures Entries(os + [o]) == Entries(os) + [o.entry]
    ensures Paths(Entries(os + [o])) == Paths(Entries(os)) + [o.entry.path]
    ensures Flags(os + [o]) == Flags(os) + if o.review != "" then [ReviewFlag(o.entry.path, o.review)] else []
  {
    assert (os + [o])[..|os|] == os;
  }

  lemma {:induction false} FirstPerPathIsDistinct(os: seq<Offer>)
    ensures Distinct(Paths(Entries(FirstPerPath(os))))
  {
    if os != [] {
      var n := |os| - 1;
      var before := FirstPerPath(os[..n]);
      FirstPerPathIsDistinct(os[..n]);
      DistinctSnoc(Paths(Entries(before)), os[n].entry.path);
      EntriesSnoc(before, os[n]);
    }
  }

  lemma FirstPerPathSnoc(os: seq<Offer>, o: Offer)
    ensures FirstPerPath(os + [o]) ==
            if o.entry.path in Paths(Entries(FirstPerPath(os))) then FirstPerPath(os) else FirstPerPath(os) + [o]
  {
    assert (os + [o])[..|os|] == os;
  }

  /** The first offer of a path is the one selected. */
  lemma {:induction false} FirstPerPathIsFirst(os: seq<Offer>, i: nat)
    requires i < |os| && forall j :: 0 <= j < i ==> os[j].entry.path != os[i].entry.path
    ensures os[i] in FirstPerPath(os)
  {
    var n := |os| - 1;
    assert os == os[..n] + [os[n]];
    FirstPerPathSnoc(os[..n], os[n]);
    if i < n {
      FirstPerPathIsFirst(os[..n], i);
    } else if os[n].entry.path in Paths(Entries(FirstPerPath(os[..n]))) {
      SelectedIsOffered(os[..n], os[n].entry.path);
    }
  }

  lemma {:induction false} SelectedIsOffered(os: seq<Offer>, path: string)
    requires path in Paths(Entries(FirstPerPath(os)))
    ensures exists j :: 0 <= j < |os| && os[j].entry.path == path
  {
    var n := |os| - 1;
    var before := FirstPerPath(os[..n]);
    EntriesSnoc(before, os[n]);
    if os[n].entry.path != path {
      SelectedIsOffered(os[..n], path);
      var j :| 0 <= j < n && os[..n][j].entry.path == path;
      assert os[j].entry.path == path;
    }
  }

  /** What the loop has collected. */
  datatype Picks = Picks(entries: seq<FileEntry>, flags: seq<ReviewFlag>, seen: set<string>)

  function PicksOf(offered: seq<Offer>): Picks {
    var first := FirstPerPath(offered);
    Picks(Entries(first), Flags(first), ToSet(Paths(Entries(first))))
  }

  function FlagOf(o: Offer): seq<ReviewFlag> {
    if o.review != "" then [ReviewFlag(o.entry.path, o.review)] else []
  }

  lemma PickKeeps(offered: seq<Offer>, o: Offer)
    requires o.entry.path in PicksOf(offered).seen
    ensures PicksOf(offered + [o]) == PicksOf(offered)
  {
    FirstPerPathSnoc(offered, o);
  }

  lemma PickAdds(offered: seq<Offer>, o: Offer)
    requires o.entry.path !in PicksOf(offered).seen
    ensures var was := PicksOf(offered);
            PicksOf(offered + [o]) == Picks(was.entries + [o.entry], was.flags + FlagOf(o), was.seen + {o.entry.path})
  {
    FirstPerPathSnoc(offered, o);
    EntriesSnoc(FirstPerPath(offered), o);
    DistinctSnoc(Paths(Entries(FirstPerPath(offered))), o.entry.path);
  }

  method AddOne(ghost offered: seq<Offer>, e: FileEntry, review: string, picks: Picks) returns (picks': Picks)
    requires picks == PicksOf(offered)
    ensures picks' == PicksOf(offered + [Offer(e, review)])
    ensures |picks'.entries| == |picks.entries| + if e.path in picks.seen then 0 else 1
  {
    if e.path in picks.seen {
      PickKeeps(offered, Offer(e, review));
      picks' := picks;
    } else {
      PickAdds(offered, Offer(e, review));
      var flags' := picks.flags;
      if review != "" {
        flags' := flags' + [ReviewFlag(e.path, review)];
      }
      picks' := Picks(picks.entries + [e], flags', picks.seen + {e.path});
    }
  }

  /** The inner loop: the entries of one fix. */
  method AddEntries(ghost offered: seq<Offer>, f: Finding, fes: seq<FileEntry>, picks: Picks) returns (picks': Picks, dropped: nat)
    requires picks == PicksOf(offered)
    ensures picks' == PicksOf(offered + OffersOf(f, fes))
    ensures |picks'.entries| + dropped == |picks.entries| + |fes|
  {
    picks', dropped := picks, 0;
    ghost var cur := offered;
    for j := 0 to |fes|
      invariant picks' == PicksOf(cur) && cur == offered + OffersOf(f, fes[..j])
      invariant |picks'.entries| + dropped == |picks.entries| + j
    {
      OffersSnoc(f, fes, j, offered);
      if fes[j].path in picks'.seen {
        dropped := dropped + 1;
      }
      picks' := AddOne(cur, fes[j], f.review, picks');
      cur := cur + [Offer(fes[j], f.review)];
    }
    assert fes[..|fes|] == fes;
  }

  /** `selectAutoFixEntries`: one entry per raw path, its flag if any, the rest counted as skipped. */
  method SelectEntries(findings: seq<Finding>) returns (entries: seq<FileEntry>, flags: seq<ReviewFlag>, skipped: nat)
    ensures entries == Selected(findings) && flags == Flags(FirstPerPath(Offered(findings)))
    ensures Distinct(Paths(entries)) && |entries| + skipped == |Offered(findings)|
  {
    var picks := Picks([], [], {});
    skipped := 0;
    for i := 0 to |findings|
      invariant picks == PicksOf(Offered(findings[..i]))
      invariant |picks.entries| + skipped == |Offered(findings[..i])|
    {
      assert findings[..i + 1][..i] == findings[..i];
      var f := findings[i];
      if f.eligible && f.fix.Some? {
        var dropped;
        picks, dropped := AddEntries(Offered(findings[..i]), f, f.fix.value, picks);
        skipped := skipped + dropped;
      }
    }
    assert findings[..|findings|] == findings;
    FirstPerPathIsDistinct(Offered(findings));
    return picks.entries, picks.flags, skipped;
  }

  // ------------------------------------------------------ what is offered and selected

  /** Entry `j` of finding `i` is on offer: the finding is eligible and its fix parsed. */
  predicate OnOffer(findings: seq<Finding>, i: int, j: int) {
    0 <= i < |findings| && findings[i].eligible && findings[i].fix.Some? && 0 <= j < |findings[i].fix.value|
  }

  function PathOn(findings: seq<Finding>, i: int, j: int): string
    requires OnOffer(findings, i, j)
  {
    findings[i].fix.value[j].path
  }

  /** No entry on offer before it, by finding and then by entry, has its path. */
  ghost predicate OfferedFirst(findings: seq<Finding>, i: int, j: int) {
    && OnOffer(findings, i, j)
    && forall a, b :: OnOffer(findings, a, b) && (a < i || (a == i && b < j)) ==> PathOn(findings, a, b) != PathOn(findings, i, j)
  }

  function TheOffer(findings: seq<Finding>, i: int, j: int): Offer
    requires OnOffer(findings, i, j)
  {
    Offer(findings[i].fix.value[j], findings[i].review)
  }

  lemma {:induction false} OffersAre(f: Finding, fes: seq<FileEntry>)
    ensures forall j :: 0 <= j < |fes| ==> OffersOf(f, fes)[j] == Offer(fes[j], f.review)
  {
    if fes != [] { OffersAre(f, fes[..|fes| - 1]); }
  }

  /** Where an entry on offer stands among the offers: by finding, then by entry. */
  function Place(findings: seq<Finding>, i: int, j: int): nat
    requires OnOffer(findings, i, j)
  {
    |Offered(findings[..i])| + j
  }

  lemma {:induction false} OfferStands(findings: seq<Finding>, i: int, j: int)
    requires OnOffer(findings, i, j)
    ensures Place(findings, i, j) < |Offered(findings[..i + 1])| <= |Offered(findings)|
    ensures Offered(findings)[Place(findings, i, j)] == TheOffer(findings, i, j)
  {
    var n := |findings| - 1;
    var pre := findings[..n];
    if i < n {
      OfferStands(pre, i, j);
      assert pre[..i] == findings[..i] && pre[..i + 1] == findings[..i + 1];
    } else {
      OffersAre(findings[n], findings[n].fix.value);
      assert findings[..n + 1] == findings;
    }
  }

  lemma {:induction false} OfferedGrows(findings: seq<Finding>, a: nat, i: nat)
    requires a <= i <= |findings|
    ensures |Offered(findings[..a])| <= |Offered(findings[..i])|
  {
    if a < i {
      OfferedGrows(findings, a, i - 1);
      assert findings[..i][..i - 1] == findings[..i - 1];
    }
  }

  lemma EarlierStandsBefore(findings: seq<Finding>, a: int, b: int, i: int, j: int)
    requires OnOffer(findings, a, b) && OnOffer(findings, i, j) && (a < i || (a == i && b < j))
    ensures Place(findings, a, b) < Place(findings, i, j)
  {
    if a < i {
      OfferStands(findings, a, b);
      OfferedGrows(findings, a + 1, i);
    }
  }

  lemma {:induction false} OfferComesFrom(findings: seq<Finding>, m: nat) returns (i: int, j: int)
    requires m < |Offered(findings)|
    ensures OnOffer(findings, i, j) && Place(findings, i, j) == m
  {
    var n := |findings| - 1;
    var pre := findings[..n];
    if m < |Offered(pre)| {
      i, j := OfferComesFrom(pre, m);
      assert pre[..i] == findings[..i];
    } else {
      i, j := n, m - |Offered(pre)|;
    }
  }

  /** No offer before the first one of a path has that path. */
  lemma FirstOfferStands(findings: seq<Finding>, i: int, j: int)
    requires OfferedFirst(findings, i, j)
    ensures var os, k := Offered(findings), Place(findings, i, j);
            k < |os| && os[k] == TheOffer(findings, i, j) && forall q :: 0 <= q < k ==> os[q].entry.path != os[k].entry.path
  {
    var os, k := Offered(findings), Place(findings, i, j);
    OfferStands(findings, i, j);
    forall q | 0 <= q < k ensures os[q].entry.path != os[k].entry.path {
      var a, b := OfferComesFrom(findings, q);
      OfferStands(findings, a, b);
      if !(a < i || (a == i && b < j)) && (a, b) != (i, j) { EarlierStandsBefore(findings, i, j, a, b); }
    }
  }

  /** The first entry on offer of each path is selected, and flagged if the gate annotated its fix. */
  lemma FirstOfferIsSelected(findings: seq<Finding>, i: int, j: int)
    requires OfferedFirst(findings, i, j)
    ensures findings[i].fix.value[j] in Selected(findings)
    ensures findings[i].review != "" ==> ReviewFlag(PathOn(findings, i, j), findings[i].review) in Flags(FirstPerPath(Offered(findings)))
  {
    var os, k := Offered(findings), Place(findings, i, j);
    FirstOfferStands(findings, i, j);
    FirstPerPathIsFirst(os, k);
    OfferIsEntry(FirstPerPath(os), os[k]);
  }

  lemma OfferIsEntry(os: seq<Offer>, o: Offer)
    requires o in os
    ensures o.entry in Entries(os) && (o.review != "" ==> ReviewFlag(o.entry.path, o.review) in Flags(os))
  {
    var m :| 0 <= m < |os| && os[m] == o;
    assert Entries(os)[m] == o.entry;
    if o.review != "" { FlagsAre(os, m); }
  }

  lemma {:induction false} FlagsAre(os: seq<Offer>, m: nat)
    requires m < |os| && os[m].review != ""
    ensures ReviewFlag(os[m].entry.path, os[m].review) in Flags(os)
  {
    if m < |os| - 1 { FlagsAre(os[..|os| - 1], m); }
  }

  lemma {:induction false} FlagComesFrom(os: seq<Offer>, m: nat) returns (k: nat)
    requires m < |Flags(os)|
    ensures k < |os| && os[k].review != "" && Flags(os)[m] == ReviewFlag(os[k].entry.path, os[k].review)
  {
    var n := |os| - 1;
    if m < |Flags(os[..n])| { k := FlagComesFrom(os[..n], m); } else { k := n; }
  }

  /** Offer `k` is the first of its path. */
  ghost predicate LeadsPath(os: seq<Offer>, k: nat) {
    k < |os| && forall q :: 0 <= q < k ==> os[q].entry.path != os[k].entry.path
  }

  ghost predicate AllAmong(os: seq<Offer>, taken: seq<string>) { forall q :: 0 <= q < |os| ==> os[q].entry.path in taken }

  lemma PathsAreSelected(os: seq<Offer>)
    ensures AllAmong(os, Paths(Entries(FirstPerPath(os))))
  {
    forall q | 0 <= q < |os| ensures os[q].entry.path in Paths(Entries(FirstPerPath(os))) { PathIsSelected(os, q, os[q].entry.path); }
  }

  lemma NewPathLeads(os: seq<Offer>, o: Offer, taken: seq<string>)
    requires AllAmong(os, taken) && o.entry.path !in taken
    ensures LeadsPath(os + [o], |os|)
  {
  }

  lemma LeadStays(os: seq<Offer>, o: Offer, k: nat)
    requires LeadsPath(os, k)
    ensures LeadsPath(os + [o], k) && (os + [o])[k] == os[k]
  {
  }

  lemma {:induction false} FirstPerPathComesFirst(os: seq<Offer>, m: nat) returns (k: nat)
    requires m < |FirstPerPath(os)|
    ensures LeadsPath(os, k) && os[k] == FirstPerPath(os)[m]
  {
    var n := |os| - 1;
    var pre, o := os[..n], os[n];
    assert os == pre + [o];
    FirstPerPathSnoc(pre, o);
    if m < |FirstPerPath(pre)| {
      k := FirstPerPathComesFirst(pre, m);
      LeadStays(pre, o, k);
    } else {
      k := n;
      PathsAreSelected(pre);
      NewPathLeads(pre, o, Paths(Entries(FirstPerPath(pre))));
    }
  }

  lemma SelectedPathsSnoc(os: seq<Offer>, o: Offer)
    ensures var was, now := Paths(Entries(FirstPerPath(os))), Paths(Entries(FirstPerPath(os + [o])));
            now == if o.entry.path in was then was else was + [o.entry.path]
  {
    FirstPerPathSnoc(os, o);
    EntriesSnoc(FirstPerPath(os), o);
  }

  /** A path on offer is a selected path. */
  lemma {:induction false} PathIsSelected(os: seq<Offer>, q: nat, path: string)
    requires q < |os| && os[q].entry.path == path
    ensures path in Paths(Entries(FirstPerPath(os)))
  {
    var n := |os| - 1;
    var pre, o := os[..n], os[n];
    SelectedPathsSnoc(pre, o);
    assert os == pre + [o];
    if q < n { PathIsSelected(pre, q, path); }
  }

  /** And nothing else is: each selected entry and each flag comes from the first entry on offer of its path. */
  lemma SelectedIsFirstOffer(findings: seq<Finding>, m: nat) returns (i: int, j: int)
    requires m < |Selected(findings)|
    ensures OfferedFirst(findings, i, j) && Selected(findings)[m] == findings[i].fix.value[j]
    ensures FirstPerPath(Offered(findings))[m].review == findings[i].review
  {
    var os := Offered(findings);
    var k := FirstPerPathComesFirst(os, m);
    i, j := OfferComesFrom(findings, k);
    OfferStands(findings, i, j);
    forall a, b | OnOffer(findings, a, b) && (a < i || (a == i && b < j)) ensures PathOn(findings, a, b) != PathOn(findings, i, j) {
      EarlierStandsBefore(findings, a, b, i, j);
      OfferStands(findings, a, b);
    }
  }

  // ------------------------------------------------------------ what a selection ensures

  ghost predicate CleaningKeepsApart(h: Host, paths: seq<string>) {
    forall a, b :: a in paths && b in paths && h.clean(a) == h.clean(b) ==> a == b
  }

  /** No selected path is the `.bak` name of a selected path, nor a leftover its backup deletes. */
  ghost predicate NoScratchNames(h: Host, paths: seq<string>) {
    forall a, b :: a in paths && b in paths ==> !Scratch(h, h.clean(b), h.clean(a))
  }

  lemma TouchIffApart(h: Host, es: seq<FileEntry>)
    requires Distinct(Paths(es))
    ensures OneTouchEach(h, es) <==> CleaningKeepsApart(h, Paths(es))
  {
    var ps := Paths(es);
    if OneTouchEach(h, es) {
      forall a, b | a in ps && b in ps && h.clean(a) == h.clean(b) ensures a == b {
        var i :| 0 <= i < |ps| && ps[i] == a;
        var j :| 0 <= j < |ps| && ps[j] == b;
        assert Target(h, es[i]) == h.clean(a) && Target(h, es[j]) == h.clean(b);
        assert i == j;
      }
    }
    if CleaningKeepsApart(h, ps) {
      forall i, j | 0 <= i < j < |es| ensures Target(h, es[i]) != Target(h, es[j]) {
        assert ps[i] in ps && ps[j] in ps;
      }
    }
  }

  lemma ApartFromScratch(h: Host, es: seq<FileEntry>)
    ensures NoScratchNames(h, Paths(es)) <==>
            forall i, j :: 0 <= i < |es| && 0 <= j < |es| ==> !Scratch(h, Target(h, es[j]), Target(h, es[i]))
  {
    var ps := Paths(es);
    if NoScratchNames(h, ps) {
      forall i, j | 0 <= i < |es| && 0 <= j < |es| ensures !Scratch(h, Target(h, es[j]), Target(h, es[i])) {
        assert ps[i] in ps && ps[j] in ps;
      }
    } else {
      var a, b :| a in ps && b in ps && Scratch(h, h.clean(b), h.clean(a));
      var i :| 0 <= i < |ps| && ps[i] == a;
      var j :| 0 <= j < |ps| && ps[j] == b;
      assert Scratch(h, Target(h, es[j]), Target(h, es[i]));
    }
  }

  // ------------------------------------------------------- a batch in which little happens

  const NO_FAULTS: int -> Fault := (i: int) => Fault(Fine, (s: string) => false, false)

  const NO_REVERT_FAULTS: RevertFaults := RevertFaults((s: string) => false, (s: string) => false)

  /** A diff against exactly one content. */
  function Replaces(from: Bytes, to: Bytes): Edit {
    Modifies((b: Bytes) => if b == from then Some(to) else None)
  }

  /** The batch in which only entries `i` and `j` do anything. */
  function OnlyTwo(ps: seq<string>, i: nat, a: Edit, j: nat, b: Edit): (es: seq<FileEntry>)
    ensures |es| == |ps| && Paths(es) == ps
    ensures forall k :: 0 <= k < |ps| ==> es[k] == FileEntry(ps[k], if k == i then a else if k == j then b else Creates(None))
  {
    seq(|ps|, (k: int) requires 0 <= k < |ps| => FileEntry(ps[k], if k == i then a else if k == j then b else Creates(None)))
  }

  type Stage = (Tree, map<string, Option<string>>)

  /** Tree and backups after one more entry that nothing outside disturbs. */
  function Step(h: Host, st: Stage, p: string, edit: Edit): Stage {
    var one := ApplyOne(h, st.0, p, edit, NO_FAULTS(0));
    (one.tree, if one.landed.None? then st.1 else st.1[p := one.landed.value])
  }

  lemma ApplySnoc(h: Host, t0: Tree, es: seq<FileEntry>, e: FileEntry)
    ensures var was, now := ApplyAll(h, t0, es, NO_FAULTS), ApplyAll(h, t0, es + [e], NO_FAULTS);
            && (now.tree, now.backups) == Step(h, (was.tree, was.backups), h.clean(e.path), e.edit)
            && now.failed == (was.failed || ApplyOne(h, was.tree, h.clean(e.path), e.edit, NO_FAULTS(0)).landed.None?)
  {
    assert (es + [e])[..|es|] == es;
  }

  /** Any fold over a batch in which only two entries do anything. */
  function Fold<S, E>(step: (S, E) -> S, s: S, es: seq<E>): S {
    if es == [] then s else step(Fold(step, s, es[..|es| - 1]), es[|es| - 1])
  }

  lemma {:induction false} FoldOnlyTwo<S, E>(step: (S, E) -> S, s: S, es: seq<E>, i: nat, j: nat, n: nat)
    requires i < j < |es| && n <= |es|
    requires forall k: nat, st: S :: k < |es| && k != i && k != j ==> step(st, es[k]) == st
    ensures Fold(step, s, es[..n]) ==
            if n <= i then s else if n <= j then step(s, es[i]) else step(step(s, es[i]), es[j])
  {
    if n > 0 {
      FoldOnlyTwo(step, s, es, i, j, n - 1);
      assert es[..n][..n - 1] == es[..n - 1];
    }
  }

  function StepBy(h: Host): (Stage, FileEntry) -> Stage {
    (st: Stage, e: FileEntry) => Step(h, st, h.clean(e.path), e.edit)
  }

  lemma {:induction false} ApplyIsFold(h: Host, t0: Tree, es: seq<FileEntry>)
    ensures var st := ApplyAll(h, t0, es, NO_FAULTS);
            (st.tree, st.backups) == Fold(StepBy(h), (t0, map[]), es)
  {
    if es != [] {
      var n := |es| - 1;
      ApplyIsFold(h, t0, es[..n]);
      assert es == es[..n] + [es[n]];
      ApplySnoc(h, t0, es[..n], es[n]);
    }
  }

  lemma StepOfNothing(h: Host, st: Stage, p: string)
    ensures Step(h, st, p, Creates(None)) == st
  {
  }

  lemma ApplyOnlyTwo(h: Host, t0: Tree, ps: seq<string>, i: nat, a: Edit, j: nat, b: Edit)
    requires i < j < |ps|
    ensures var st := ApplyAll(h, t0, OnlyTwo(ps, i, a, j, b), NO_FAULTS);
            (st.tree, st.backups) == Step(h, Step(h, (t0, map[]), h.clean(ps[i]), a), h.clean(ps[j]), b)
  {
    var es := OnlyTwo(ps, i, a, j, b);
    ApplyIsFold(h, t0, es);
    forall k: nat, st: Stage | k < |es| && k != i && k != j ensures StepBy(h)(st, es[k]) == st { StepOfNothing(h, st, h.clean(ps[k])); }
    FoldOnlyTwo(StepBy(h), (t0, map[]), es, i, j, |es|);
    assert es[..|es|] == es;
  }

  /** Only one entry does anything. */
  lemma {:induction false} ApplyOnlyOne(h: Host, t0: Tree, ps: seq<string>, i: nat, a: Edit, n: nat)
    requires i < |ps| && n <= |ps|
    ensures Fold(StepBy(h), (t0, map[]), OnlyTwo(ps, i, a, i, a)[..n]) ==
            if n <= i then (t0, map[]) else Step(h, (t0, map[]), h.clean(ps[i]), a)
  {
    if n > 0 {
      var es := OnlyTwo(ps, i, a, i, a);
      ApplyOnlyOne(h, t0, ps, i, a, n - 1);
      assert es[..n][..n - 1] == es[..n - 1];
      StepOfNothing(h, Fold(StepBy(h), (t0, map[]), es[..n - 1]), h.clean(ps[n - 1]));
    }
  }

  lemma ApplyOneEntry(h: Host, t0: Tree, ps: seq<string>, i: nat, a: Edit)
    requires i < |ps|
    ensures var st := ApplyAll(h, t0, OnlyTwo(ps, i, a, i, a), NO_FAULTS);
            (st.tree, st.backups) == Step(h, (t0, map[]), h.clean(ps[i]), a)
  {
    var es := OnlyTwo(ps, i, a, i, a);
    ApplyIsFold(h, t0, es);
    ApplyOnlyOne(h, t0, ps, i, a, |es|);
    assert es[..|es|] == es;
  }

  /** A matching diff on a file that does not clear itself away. */
  lemma StepReplaces(h: Host, t: Tree, backups: map<string, Option<string>>, p: string, from: Bytes, to: Bytes)
    requires At(t, p) == Some(from) && !Clears(h, p, p)
    ensures Step(h, (t, backups), p, Replaces(from, to)) == (Cleared(h, t, p)[Bak(p) := from][p := to], backups[p := Some(Bak(p))])
    ensures ApplyOne(h, t, p, Replaces(from, to), NO_FAULTS(0)).landed.Some?
  {
    assert Swept(h, t, p, StuckButOld(p, NO_FAULTS(0).stuck)) == Cleared(h, t, p);
  }

  /** The tree without the leftovers of earlier backups of `p`. */
  function Cleared(h: Host, t: Tree, p: string): Tree { t - (set q | q in t && Clears(h, p, q)) }

  /** A file whose own name counts as a leftover of its backups is deleted and not backed up. */
  lemma StepSelfClears(h: Host, t: Tree, backups: map<string, Option<string>>, p: string, edit: Edit)
    requires p in t && Clears(h, p, p) && edit == Removes
    ensures Step(h, (t, backups), p, edit) == (Cleared(h, t, p), backups)
  {
    OldNames(p, p);
    assert Swept(h, t, p, StuckButOld(p, NO_FAULTS(0).stuck)) == Cleared(h, t, p);
  }

  // ----------------------------------------------------------------- failing reverts

  lemma RevertOfOne(t: Tree, p: string)
    requires Bak(p) in t
    ensures var backups := map[p := Some(Bak(p))];
            && IsOrderOf(backups, [p])
            && RevertAll(t, backups, [p], NO_REVERT_FAULTS) == (t[p := t[Bak(p)]] - {Bak(p)}, true)
  {
    var backups: map<string, Option<string>> := map[p := Some(Bak(p))];
    assert [p][..0] == [];
    assert RevertAll(t, backups, [], NO_REVERT_FAULTS) == (t, true);
  }

  lemma RevertOfTwo(t: Tree, p: string, q: string)
    requires p != q && Bak(p) in t && Bak(q) in t[p := t[Bak(p)]] - {Bak(p)}
    ensures var backups := map[p := Some(Bak(p)), q := Some(Bak(q))];
            var mid := t[p := t[Bak(p)]] - {Bak(p)};
            && IsOrderOf(backups, [p, q])
            && RevertAll(t, backups, [p, q], NO_REVERT_FAULTS) == (mid[q := mid[Bak(q)]] - {Bak(q)}, true)
  {
    var backups: map<string, Option<string>> := map[p := Some(Bak(p)), q := Some(Bak(q))];
    assert [p, q][..1] == [p] && [p][..0] == [];
    assert RevertAll(t, backups, [], NO_REVERT_FAULTS) == (t, true);
    assert RevertAll(t, backups, [p], NO_REVERT_FAULTS) == (t[p := t[Bak(p)]] - {Bak(p)}, true);
  }

  /**
   Whatever the tree, the faults, the order and the outcome of each call: a revert that
   reports success leaves `x` as it was before the apply.
   */
  ghost predicate Restores(h: Host, t0: Tree, entries: seq<FileEntry>, faults: int -> Fault, order: seq<string>, f: RevertFaults, x: string) {
    var st := ApplyAll(h, t0, entries, faults);
    IsOrderOf(st.backups, order) && RevertAll(st.tree, st.backups, order, f).1 ==>
      At(RevertAll(st.tree, st.backups, order, f).0, x) == At(t0, x)
  }

  /** Two entries for one file: the second backup overwrites the first. */
  lemma TwoTouchesDefeatRevert(h: Host, ps: seq<string>, i: nat, j: nat)
    requires i < j < |ps| && h.clean(ps[i]) == h.clean(ps[j]) && !Clears(h, h.clean(ps[i]), h.clean(ps[i]))
    ensures var p := h.clean(ps[i]);
            !Restores(h, map[p := "0"], OnlyTwo(ps, i, Replaces("0", "1"), j, Replaces("1", "2")), NO_FAULTS, [p], NO_REVERT_FAULTS, p)
  {
    var p, t0: Tree := h.clean(ps[i]), map[h.clean(ps[i]) := "0"];
    BakNames(p, p);
    ApplyOnlyTwo(h, t0, ps, i, Replaces("0", "1"), j, Replaces("1", "2"));
    var t1 := Cleared(h, t0, p)[Bak(p) := "0"][p := "1"];
    StepReplaces(h, t0, map[], p, "0", "1");
    StepReplaces(h, t1, map[p := Some(Bak(p))], p, "1", "2");
    assert map[p := Some(Bak(p))][p := Some(Bak(p))] == map[p := Some(Bak(p))];
    RevertOfOne(Cleared(h, t1, p)[Bak(p) := "1"][p := "2"], p);
  }

  /** A selected file in the scratch space of another is overwritten or deleted, and not brought back. */
  lemma ScratchDefeatsRevert(h: Host, ps: seq<string>, i: nat, x: string)
    requires i < |ps| && x != h.clean(ps[i]) && Scratch(h, h.clean(ps[i]), x) && !Clears(h, h.clean(ps[i]), h.clean(ps[i]))
    ensures var p := h.clean(ps[i]);
            !Restores(h, map[p := "0", x := "B"], OnlyTwo(ps, i, Replaces("0", "1"), i, Replaces("0", "1")), NO_FAULTS, [p], NO_REVERT_FAULTS, x)
  {
    var p := h.clean(ps[i]);
    var t0: Tree := map[p := "0", x := "B"];
    BakNames(p, p);
    ApplyOneEntry(h, t0, ps, i, Replaces("0", "1"));
    StepReplaces(h, t0, map[], p, "0", "1");
    var t1 := Cleared(h, t0, p)[Bak(p) := "0"][p := "1"];
    RevertOfOne(t1, p);
    assert x !in t1[p := t1[Bak(p)]] - {Bak(p)};
  }

  /** A file that its own backup deletes is gone. */
  lemma SelfClearingDefeatsRevert(h: Host, ps: seq<string>, i: nat)
    requires i < |ps| && Clears(h, h.clean(ps[i]), h.clean(ps[i]))
    ensures var p := h.clean(ps[i]);
            !Restores(h, map[p := "0"], OnlyTwo(ps, i, Removes, i, Removes), NO_FAULTS, [], NO_REVERT_FAULTS, p)
  {
    var p, t0: Tree := h.clean(ps[i]), map[h.clean(ps[i]) := "0"];
    ApplyOneEntry(h, t0, ps, i, Removes);
    StepSelfClears(h, t0, map[], p, Removes);
    assert p !in Cleared(h, t0, p);
  }

  // --------------------------------------------------------------- the exact condition

  /**
   A batch of patches for these paths can be undone: for every tree, whatever the patches
   say, whatever fails and in whatever order the files are restored, a revert that reports
   success leaves as it was every selected file and every path outside the scratch names.
   */
  ghost predicate SafeRevert(h: Host, paths: seq<string>) {
    forall t0: Tree, entries: seq<FileEntry>, faults: int -> Fault, order: seq<string>, f: RevertFaults, x: string ::
      Paths(entries) == paths && (IsTarget(h, entries, x) || !IsScratch(h, entries, x)) ==> Restores(h, t0, entries, faults, order, f, x)
  }

  lemma SeparateOfPaths(h: Host, a: seq<FileEntry>, b: seq<FileEntry>)
    requires Paths(a) == Paths(b)
    ensures Separate(h, a) ==> Separate(h, b)
  {
    assert |Paths(a)| == |a| && |Paths(b)| == |b|;
    forall i | 0 <= i < |a| ensures Target(h, a[i]) == Target(h, b[i]) {
      assert Paths(a)[i] == Paths(b)[i];
    }
  }

  lemma SeparateIsSafe(h: Host, entries: seq<FileEntry>)
    requires Separate(h, entries)
    ensures SafeRevert(h, Paths(entries))
  {
    forall t0: Tree, es: seq<FileEntry>, faults: int -> Fault, order: seq<string>, f: RevertFaults, x: string
      | Paths(es) == Paths(entries) && (IsTarget(h, es, x) || !IsScratch(h, es, x))
      ensures Restores(h, t0, es, faults, order, f, x)
    {
      SeparateOfPaths(h, entries, es);
      var st := ApplyAll(h, t0, es, faults);
      if IsOrderOf(st.backups, order) && RevertAll(st.tree, st.backups, order, f).1 {
        RevertUndoesApply(h, t0, es, faults, st.tree, order, f, x);
      }
    }
  }

  lemma NotSafe(h: Host, t0: Tree, es: seq<FileEntry>, order: seq<string>, x: string)
    requires !Restores(h, t0, es, NO_FAULTS, order, NO_REVERT_FAULTS, x) && IsTarget(h, es, x)
    ensures !SafeRevert(h, Paths(es))
  {
  }

  lemma TargetOf(h: Host, ps: seq<string>, es: seq<FileEntry>, i: nat)
    requires Paths(es) == ps && i < |ps|
    ensures IsTarget(h, es, h.clean(ps[i]))
  {
    assert |es| == |Paths(es)| && es[i].path == ps[i];
    assert Target(h, es[i]) == h.clean(ps[i]);
  }

  lemma ScratchTargetIsUnsafe(h: Host, ps: seq<string>, i: nat, j: nat)
    requires i < |ps| && j < |ps| && Scratch(h, h.clean(ps[j]), h.clean(ps[i]))
    ensures !SafeRevert(h, ps)
  {
    var p, x := h.clean(ps[j]), h.clean(ps[i]);
    BakNames(p, p);
    if Clears(h, p, p) {
      SelfClearingDefeatsRevert(h, ps, j);
      TargetOf(h, ps, OnlyTwo(ps, j, Removes, j, Removes), j);
      NotSafe(h, map[p := "0"], OnlyTwo(ps, j, Removes, j, Removes), [], p);
    } else {
      ScratchDefeatsRevert(h, ps, j, x);
      TargetOf(h, ps, OnlyTwo(ps, j, Replaces("0", "1"), j, Replaces("0", "1")), i);
      NotSafe(h, map[p := "0", x := "B"], OnlyTwo(ps, j, Replaces("0", "1"), j, Replaces("0", "1")), [p], x);
    }
  }

  lemma TwoTouchesAreUnsafe(h: Host, ps: seq<string>, i: nat, j: nat)
    requires i < j < |ps| && h.clean(ps[i]) == h.clean(ps[j]) && !Clears(h, h.clean(ps[i]), h.clean(ps[i]))
    ensures !SafeRevert(h, ps)
  {
    var p := h.clean(ps[i]);
    TwoTouchesDefeatRevert(h, ps, i, j);
    TargetOf(h, ps, OnlyTwo(ps, i, Replaces("0", "1"), j, Replaces("1", "2")), i);
    NotSafe(h, map[p := "0"], OnlyTwo(ps, i, Replaces("0", "1"), j, Replaces("1", "2")), [p], p);
  }

  lemma OverlapIsUnsafe(h: Host, entries: seq<FileEntry>)
    requires !Separate(h, entries)
    ensures !SafeRevert(h, Paths(entries))
  {
    var ps := Paths(entries);
    if i, j :| 0 <= i < |entries| && 0 <= j < |entries| && Scratch(h, Target(h, entries[j]), Target(h, entries[i])) {
      ScratchTargetIsUnsafe(h, ps, i, j);
    } else {
      var i, j :| 0 <= i < j < |entries| && Target(h, entries[i]) == Target(h, entries[j]);
      assert !Scratch(h, Target(h, entries[i]), Target(h, entries[i]));
      TwoTouchesAreUnsafe(h, ps, i, j);
    }
  }

  /** Revert safety, exactly: no file is touched twice and no touched file is scratch space of a touched one. */
  lemma RevertSafeIff(h: Host, entries: seq<FileEntry>)
    ensures SafeRevert(h, Paths(entries)) <==> Separate(h, entries)
  {
    if Separate(h, entries) { SeparateIsSafe(h, entries); } else { OverlapIsUnsafe(h, entries); }
  }

  /**
   What is selected can be undone iff cleaning keeps the selected raw paths apart and sends
   none of them into the scratch space of another; the selection ensures neither.
   */
  lemma SelectionSafeIff(h: Host, findings: seq<Finding>)
    ensures var paths := Paths(Selected(findings));
            SafeRevert(h, paths) <==> CleaningKeepsApart(h, paths) && NoScratchNames(h, paths)
  {
    var es := Selected(findings);
    FirstPerPathIsDistinct(Offered(findings));
    TouchIffApart(h, es);
    ApartFromScratch(h, es);
    RevertSafeIff(h, es);
  }

  // --------------------------------------------------- selections that cannot be undone

  /** One finding whose fix has these entries. */
  function Fixing(entries: seq<FileEntry>): Finding { Finding(Some(entries), true, "") }

  lemma OffersOfTwo(x: FileEntry, y: FileEntry)
    ensures Offered([Fixing([x, y])]) == [Offer(x, ""), Offer(y, "")]
  {
    var one := Fixing([x, y]);
    assert [one][..0] == [] && Offered([]) == [];
    assert [x, y][..1] == [x] && [x][..0] == [];
    assert OffersOf(one, []) == [] && OffersOf(one, [x]) == [Offer(x, "")];
  }

  lemma SelectsTwo(x: FileEntry, y: FileEntry)
    requires x.path != y.path
    ensures Selected([Fixing([x, y])]) == [x, y]
  {
    var a, b := Offer(x, ""), Offer(y, "");
    OffersOfTwo(x, y);
    assert [] + [a] == [a] && [a] + [b] == [a, b];
    PickAdds([], a);
    PickAdds([a], b);
  }

  /** A batch of two diffs that both match what they find. */
  lemma ApplyTwo(h: Host, t0: Tree, x: FileEntry, y: FileEntry, t1: Tree, from: Bytes, to: Bytes, from': Bytes, to': Bytes)
    requires x.edit == Replaces(from, to) && y.edit == Replaces(from', to')
    requires var p, q := h.clean(x.path), h.clean(y.path);
             && At(t0, p) == Some(from) && At(t1, q) == Some(from') && !Clears(h, p, p) && !Clears(h, q, q)
             && t1 == Cleared(h, t0, p)[Bak(p) := from][p := to]
    ensures var p, q := h.clean(x.path), h.clean(y.path);
            ApplyAll(h, t0, [x, y], NO_FAULTS) ==
              ApplyState(Cleared(h, t1, q)[Bak(q) := from'][q := to'], map[p := Some(Bak(p))][q := Some(Bak(q))], false)
  {
    var p, q := h.clean(x.path), h.clean(y.path);
    assert [] + [x] == [x] && [x] + [y] == [x, y];
    ApplySnoc(h, t0, [], x);
    ApplySnoc(h, t0, [x], y);
    StepReplaces(h, t0, map[], p, from, to);
    StepReplaces(h, t1, map[p := Some(Bak(p))], q, from', to');
  }

  lemma NothingCleared(h: Host, t: Tree, p: string)
    requires forall q :: q in t ==> !Clears(h, p, q)
    ensures Cleared(h, t, p) == t
  {
  }

  /** The first of two diffs deletes what the second one is for. */
  lemma ApplyThenMissing(h: Host, t0: Tree, x: FileEntry, y: FileEntry, from: Bytes, to: Bytes, edit: Bytes -> Option<Bytes>)
    requires x.edit == Replaces(from, to) && y.edit == Modifies(edit)
    requires var p, q := h.clean(x.path), h.clean(y.path);
             At(t0, p) == Some(from) && !Clears(h, p, p) && q != p && q != Bak(p) && Clears(h, p, q)
    ensures var p := h.clean(x.path);
            ApplyAll(h, t0, [x, y], NO_FAULTS) == ApplyState(Cleared(h, t0, p)[Bak(p) := from][p := to], map[p := Some(Bak(p))], true)
  {
    var p, q := h.clean(x.path), h.clean(y.path);
    var t1 := Cleared(h, t0, p)[Bak(p) := from][p := to];
    assert [] + [x] == [x] && [x] + [y] == [x, y];
    ApplySnoc(h, t0, [], x);
    ApplySnoc(h, t0, [x], y);
    StepReplaces(h, t0, map[], p, from, to);
    assert q !in t1;
  }

  /**
   Two raw paths that clean to one file pass the selection, whatever else the cleaning does;
   apply succeeds, and a revert that reports success leaves the file patched.
   */
  lemma AliasedPathsDefeatRevert(h: Host, a: string, b: string)
    requires a != b && h.clean(a) == h.clean(b) && !h.litter(h.clean(a), h.clean(a))
    ensures var p, es := h.clean(a), [FileEntry(a, Replaces("0", "1")), FileEntry(b, Replaces("1", "2"))];
            var st := ApplyAll(h, map[p := "0"], es, NO_FAULTS);
            && Selected([Fixing(es)]) == es
            && !st.failed && IsOrderOf(st.backups, [p])
            && RevertAll(st.tree, st.backups, [p], NO_REVERT_FAULTS).1
            && At(RevertAll(st.tree, st.backups, [p], NO_REVERT_FAULTS).0, p) == Some("1")
  {
    var p, t0: Tree := h.clean(a), map[h.clean(a) := "0"];
    var x, y := FileEntry(a, Replaces("0", "1")), FileEntry(b, Replaces("1", "2"));
    SelectsTwo(x, y);
    BakNames(p, p);
    OldNames(p, p);
    var t1 := Cleared(h, t0, p)[Bak(p) := "0"][p := "1"];
    ApplyTwo(h, t0, x, y, t1, "0", "1", "1", "2");
    assert map[p := Some(Bak(p))][p := Some(Bak(p))] == map[p := Some(Bak(p))];
    RevertOfOne(Cleared(h, t1, p)[Bak(p) := "1"][p := "2"], p);
  }

  /** Neither of two paths is a leftover of a backup of the other or of its own. */
  predicate NoLitter(h: Host, p: string, q: string) {
    !Clears(h, p, p) && !Clears(h, p, q) && !Clears(h, q, p) && !Clears(h, q, q)
  }

  /** A batch that patches a file and then the backup just made of it. */
  lemma BackupTargetApplied(h: Host, x: FileEntry, y: FileEntry, p: string, q: string)
    requires h.clean(x.path) == p && h.clean(y.path) == q && q == Bak(p) && NoLitter(h, p, q)
    requires x.edit == Replaces("0", "1") && y.edit == Replaces("0", "2")
    ensures ApplyAll(h, map[p := "0", q := "0"], [x, y], NO_FAULTS) ==
            ApplyState(map[p := "1", q := "2", Bak(q) := "0"], map[p := Some(q), q := Some(Bak(q))], false)
  {
    var t0: Tree := map[p := "0", q := "0"];
    BakNames(p, q);
    BakNames(q, p);
    assert |Bak(q)| > |p|;
    var t1 := t0[q := "0"][p := "1"];
    NothingCleared(h, t0, p);
    NothingCleared(h, t1, q);
    ApplyTwo(h, t0, x, y, t1, "0", "1", "0", "2");
    assert map[p := Some(q)][q := Some(Bak(q))] == map[p := Some(q), q := Some(Bak(q))];
    assert t1[Bak(q) := "0"][q := "2"] == map[p := "1", q := "2", Bak(q) := "0"];
  }

  lemma BackupTargetReverted(p: string, q: string)
    requires q == Bak(p)
    ensures var st := ApplyState(map[p := "1", q := "2", Bak(q) := "0"], map[p := Some(q), q := Some(Bak(q))], false);
            && IsOrderOf(st.backups, [p, q]) && RevertAll(st.tree, st.backups, [p, q], NO_REVERT_FAULTS).1
            && At(RevertAll(st.tree, st.backups, [p, q], NO_REVERT_FAULTS).0, p) == Some("2")
  {
    BakNames(p, q);
    BakNames(q, p);
    assert |Bak(q)| > |p|;
    RevertOfTwo(map[p := "1", q := "2", Bak(q) := "0"], p, q);
  }

  /**
   A file and its own backup name pass the selection too; apply succeeds, and a revert that
   reports success gives the file the patched content of the other.
   */
  lemma BackupTargetDefeatsRevert(h: Host, a: string, b: string)
    requires h.clean(b) == Bak(h.clean(a)) && NoLitter(h, h.clean(a), h.clean(b))
    ensures var p, es := h.clean(a), [FileEntry(a, Replaces("0", "1")), FileEntry(b, Replaces("0", "2"))];
            var st := ApplyAll(h, map[p := "0", Bak(p) := "0"], es, NO_FAULTS);
            && Selected([Fixing(es)]) == es
            && !st.failed && IsOrderOf(st.backups, [p, Bak(p)])
            && RevertAll(st.tree, st.backups, [p, Bak(p)], NO_REVERT_FAULTS).1
            && At(RevertAll(st.tree, st.backups, [p, Bak(p)], NO_REVERT_FAULTS).0, p) == Some("2")
  {
    var p := h.clean(a);
    var x, y := FileEntry(a, Replaces("0", "1")), FileEntry(b, Replaces("0", "2"));
    BakNames(p, p);
    SelectsTwo(x, y);
    BackupTargetApplied(h, x, y, p, Bak(p));
    BackupTargetReverted(p, Bak(p));
  }

  /**
   A file and its `.bak.old` name: backing up the first deletes the second, whose own patch
   then finds nothing; the revert that follows reports success and the file stays gone.
   */
  lemma OldTargetIsLost(h: Host, a: string, b: string)
    requires h.clean(b) == Old(h.clean(a)) && !h.litter(h.clean(a), h.clean(a))
    ensures var p, x, es := h.clean(a), h.clean(b), [FileEntry(a, Replaces("0", "1")), FileEntry(b, Replaces("B", "2"))];
            var st := ApplyAll(h, map[p := "0", x := "B"], es, NO_FAULTS);
            && Selected([Fixing(es)]) == es
            && st.failed && IsOrderOf(st.backups, [p])
            && RevertAll(st.tree, st.backups, [p], NO_REVERT_FAULTS).1
            && At(RevertAll(st.tree, st.backups, [p], NO_REVERT_FAULTS).0, x) == None
  {
    var p, x := h.clean(a), h.clean(b);
    var t0: Tree := map[p := "0", x := "B"];
    var e, f := FileEntry(a, Replaces("0", "1")), FileEntry(b, Replaces("B", "2"));
    OldNames(p, p);
    BakNames(p, p);
    SelectsTwo(e, f);
    ApplyThenMissing(h, t0, e, f, "0", "1", f.edit.patch);
    var t1 := Cleared(h, t0, p)[Bak(p) := "0"][p := "1"];
    RevertOfOne(t1, p);
    assert x !in t1;
  }
}
