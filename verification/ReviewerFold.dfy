/**
 The score accumulator of a benchmark run (`applyReviewerOutcome`), the one fold that
 fresh execution and checkpoint replay share, and the grounding tag both tiers fold.
 */
module ReviewerFold {
  import opened Basics
  import opened Orders
  import opened Benchmark

  // ---------------------------------------------------------- grounding tag

  /** `foldGroundingEnabled`: unanimity over three values, None absorbing. */
  function FoldGrounding(prior: Option<bool>, caseState: Option<bool>, first: bool): Option<bool> {
    if first then caseState
    else if prior.None? || caseState.None? || prior.value != caseState.value then None
    else prior
  }

  /** The repo-state row's tag after a sequence of scored cases. */
  function GroundingTag(states: seq<Option<bool>>): Option<bool> {
    if states == [] then None
    else FoldGrounding(GroundingTag(states[..|states| - 1]), states[|states| - 1], |states| == 1)
  }

  /** A tag claims a state exactly when every case reported that state. */
  lemma {:induction false} GroundingTagIsUnanimity(states: seq<Option<bool>>, b: bool)
    ensures GroundingTag(states) == Some(b) <==> states != [] && forall i :: 0 <= i < |states| ==> states[i] == Some(b)
  {
    if states != [] {
      var n := |states| - 1;
      GroundingTagIsUnanimity(states[..n], b);
      if n > 0 { assert states[..n][0] == states[0]; }
      assert forall i :: 0 <= i < n ==> states[..n][i] == states[i];
    }
  }

  // ------------------------------------------------------------ accumulator

  /** Everything one reviewer produced on one case. */
  datatype CaseOutcome = CaseOutcome(
    key: ReviewerKey,
    caseID: string,
    expected: seq<string>,
    raised: seq<string>,
    usageReported: bool,
    cost: real,
    latency: int,
    outcome: string,
    fallbackUsed: bool,
    agent: string,
    grounding: Option<bool>)

  /** One realized identity's accumulated row. */
  datatype Acc = Acc(
    cases: seq<CaseScore>,
    caseIDs: seq<string>,
    outcomes: map<string, int>,
    fallbackCases: int,
    agents: set<string>,
    cost: real,
    latencies: seq<int>,
    grounding: Option<bool>,
    groundingObserved: bool)

  const EMPTY_ACC := Acc([], [], map[], 0, {}, 0.0, [], None, false)

  datatype Board = Board(accs: map<ReviewerKey, Acc>, order: seq<ReviewerKey>)

  const EMPTY_BOARD := Board(map[], [])

  /** Floating-point addition: no law is assumed of it, so fold order matters. */
  type AddCost = (real, real) -> real

  function ApplyTo(add: AddCost, acc: Acc, o: CaseOutcome): Acc {
    Acc(
      acc.cases + [CaseScore(o.expected, o.raised)],
      acc.caseIDs + [o.caseID],
      Bump(acc.outcomes, OutcomeTallyKey(o.outcome)),
      if o.fallbackUsed then acc.fallbackCases + 1 else acc.fallbackCases,
      acc.agents + {o.agent},
      if o.usageReported then add(acc.cost, o.cost) else acc.cost,
      if o.usageReported then acc.latencies + [o.latency] else acc.latencies,
      if o.grounding.Some? then FoldGrounding(acc.grounding, o.grounding, !acc.groundingObserved) else acc.grounding,
      acc.groundingObserved || o.grounding.Some?)
  }

  function Apply(add: AddCost, b: Board, o: CaseOutcome): Result<Board> {
    if o.key !in b.accs then
      Ok(Board(b.accs[o.key := ApplyTo(add, EMPTY_ACC, o)], b.order + [o.key]))
    else if o.caseID in b.accs[o.key].caseIDs then
      Err
    else
      Ok(Board(b.accs[o.key := ApplyTo(add, b.accs[o.key], o)], b.order))
  }

  function ApplyAll(add: AddCost, b: Board, os: seq<CaseOutcome>): Result<Board> {
    if os == [] then Ok(b)
    else
      match ApplyAll(add, b, os[..|os| - 1])
      case Err => Err
      case Ok(b') => Apply(add, b', os[|os| - 1])
  }

  lemma {:induction false} ApplyAllConcat(add: AddCost, b: Board, xs: seq<CaseOutcome>, ys: seq<CaseOutcome>)
    ensures ApplyAll(add, b, xs + ys) ==
            match ApplyAll(add, b, xs) case Err => Err case Ok(b') => ApplyAll(add, b', ys)
  {
    if ys == [] {
      assert xs + ys == xs;
    } else {
      var n := |ys| - 1;
      ApplyAllConcat(add, b, xs, ys[..n]);
      assert (xs + ys)[..|xs + ys| - 1] == xs + ys[..n];
    }
  }

  /** The mutable accumulator: the map of rows and the first-sighting order, updated in place. */
  class ScoreBoard {
    var accs: map<ReviewerKey, Acc>
    var order: seq<ReviewerKey>

    function State(): Board
      reads this
    {
      Board(accs, order)
    }

    constructor ()
      ensures State() == EMPTY_BOARD
    {
      accs, order := map[], [];
    }

    method Fold(add: AddCost, o: CaseOutcome) returns (ok: bool)
      modifies this
      ensures ok ==> Apply(add, old(State()), o) == Ok(State())
      ensures !ok ==> Apply(add, old(State()), o) == Err && State() == old(State())
    {
      var acc := EMPTY_ACC;
      if o.key !in accs {
        order := order + [o.key];
      } else if o.caseID in accs[o.key].caseIDs {
        return false;
      } else {
        acc := accs[o.key];
      }
      accs := accs[o.key := ApplyTo(add, acc, o)];
      return true;
    }
  }

  // ------------------------------------------- what the fold means, row by row

  function OfKey(os: seq<CaseOutcome>, k: ReviewerKey): seq<CaseOutcome> {
    Filter((o: CaseOutcome) => o.key == k, os)
  }

  /** The row one identity ends with, from its own outcomes alone. */
  function Row(add: AddCost, os: seq<CaseOutcome>): Acc {
    if os == [] then EMPTY_ACC else ApplyTo(add, Row(add, os[..|os| - 1]), os[|os| - 1])
  }

  function FirstSightings(os: seq<CaseOutcome>): seq<ReviewerKey> {
    if os == [] then []
    else
      var before := FirstSightings(os[..|os| - 1]);
      var k := os[|os| - 1].key;
      if k in before then before else before + [k]
  }

  predicate Repeats(os: seq<CaseOutcome>, o: CaseOutcome) {
    exists p :: p in os && p.key == o.key && p.caseID == o.caseID
  }

  /** No identity scored a case twice. */
  ghost predicate EachCaseOnce(os: seq<CaseOutcome>) {
    forall i, j :: 0 <= i < j < |os| ==> os[i].key != os[j].key || os[i].caseID != os[j].caseID
  }

  lemma OfKeySnoc(os: seq<CaseOutcome>, o: CaseOutcome, k: ReviewerKey)
    ensures OfKey(os + [o], k) == if o.key == k then OfKey(os, k) + [o] else OfKey(os, k)
  {
    var p := (x: CaseOutcome) => x.key == k;
    FilterConcat(p, os, [o]);
    FilterCons(p, o, []);
    assert [o] + [] == [o];
  }

  lemma {:induction false} RowCaseIDs(add: AddCost, os: seq<CaseOutcome>)
    ensures Row(add, os).caseIDs == Map((o: CaseOutcome) => o.caseID, os)
  {
    if os != [] { RowCaseIDs(add, os[..|os| - 1]); }
  }

  lemma {:induction false} OrderIsFirstSighting(add: AddCost, os: seq<CaseOutcome>)
    requires ApplyAll(add, EMPTY_BOARD, os).Ok?
    ensures var b := ApplyAll(add, EMPTY_BOARD, os).value;
            b.order == FirstSightings(os) && forall k :: k in b.accs <==> k in b.order
  {
    if os != [] { OrderIsFirstSighting(add, os[..|os| - 1]); }
  }

  lemma {:induction false} RowIsOwnHistory(add: AddCost, os: seq<CaseOutcome>, k: ReviewerKey)
    requires ApplyAll(add, EMPTY_BOARD, os).Ok?
    ensures var b := ApplyAll(add, EMPTY_BOARD, os).value;
            && (k in b.accs <==> OfKey(os, k) != [])
            && (k in b.accs ==> b.accs[k] == Row(add, OfKey(os, k)))
  {
    if os != [] {
      var n := |os| - 1;
      RowIsOwnHistory(add, os[..n], k);
      assert os == os[..n] + [os[n]];
      OfKeySnoc(os[..n], os[n], k);
    }
  }

  /** The next outcome is refused exactly when its identity already scored its case. */
  lemma RefusalIsRepeat(add: AddCost, os: seq<CaseOutcome>, o: CaseOutcome)
    requires ApplyAll(add, EMPTY_BOARD, os).Ok?
    ensures Apply(add, ApplyAll(add, EMPTY_BOARD, os).value, o).Err? <==> Repeats(os, o)
  {
    RowIsOwnHistory(add, os, o.key);
    var mine := OfKey(os, o.key);
    var ids := Map((x: CaseOutcome) => x.caseID, mine);
    RowCaseIDs(add, mine);
    FilterMembers((x: CaseOutcome) => x.key == o.key, os);
    if Repeats(os, o) {
      var p :| p in os && p.key == o.key && p.caseID == o.caseID;
      assert p in mine;
      var i :| 0 <= i < |mine| && mine[i] == p;
      assert ids[i] == o.caseID;
    } else {
      forall i | 0 <= i < |ids| ensures ids[i] != o.caseID { assert mine[i] in os; }
    }
  }

  lemma EachCaseOnceSnoc(os: seq<CaseOutcome>, o: CaseOutcome)
    ensures EachCaseOnce(os + [o]) <==> EachCaseOnce(os) && !Repeats(os, o)
  {
    var all := os + [o];
    assert all[|os|] == o && forall i :: 0 <= i < |os| ==> all[i] == os[i];
  }

  /** The fold accepts when and only when no identity scores a case twice. */
  lemma {:induction false} FoldAcceptsIffEachCaseOnce(add: AddCost, os: seq<CaseOutcome>)
    ensures ApplyAll(add, EMPTY_BOARD, os).Ok? <==> EachCaseOnce(os)
  {
    if os != [] {
      var n := |os| - 1;
      assert os == os[..n] + [os[n]];
      FoldAcceptsIffEachCaseOnce(add, os[..n]);
      EachCaseOnceSnoc(os[..n], os[n]);
      if ApplyAll(add, EMPTY_BOARD, os[..n]).Ok? { RefusalIsRepeat(add, os[..n], os[n]); }
    }
  }

  // ------------------------------------------------------- the row invariant

  function GroundingStates(os: seq<CaseOutcome>): seq<Option<bool>> {
    Filter((g: Option<bool>) => g.Some?, Map((o: CaseOutcome) => o.grounding, os))
  }

  ghost predicate RowInv(acc: Acc) {
    && Distinct(acc.caseIDs)
    && |acc.cases| == |acc.caseIDs|
    && MapSum(acc.outcomes) == |acc.caseIDs|
    && (forall k :: k in acc.outcomes ==> acc.outcomes[k] > 0)
  }

  /** Rows list each case once, with as many scores and tallied outcomes; `order` lists each row once. */
  ghost predicate BoardInv(b: Board) {
    && Distinct(b.order)
    && ToSet(b.order) == b.accs.Keys
    && (forall k :: k in b.accs ==> RowInv(b.accs[k]))
  }

  lemma ApplyKeepsInv(add: AddCost, b: Board, o: CaseOutcome)
    requires BoardInv(b) && Apply(add, b, o).Ok?
    ensures BoardInv(Apply(add, b, o).value)
  {
    var b' := Apply(add, b, o).value;
    var before := if o.key in b.accs then b.accs[o.key] else EMPTY_ACC;
    assert RowInv(before) && o.caseID !in before.caseIDs;
    assert b'.accs[o.key] == ApplyTo(add, before, o);
    assert RowInv(b'.accs[o.key]);
    assert o.key in b.order <==> o.key in b.accs by { assert o.key in ToSet(b.order) <==> o.key in b.accs; }
    assert ToSet(b'.order) == b'.accs.Keys;
  }

  /** Every accumulator a run can reach satisfies the invariant. */
  lemma {:induction false} ReachableBoardInv(add: AddCost, os: seq<CaseOutcome>)
    requires ApplyAll(add, EMPTY_BOARD, os).Ok?
    ensures BoardInv(ApplyAll(add, EMPTY_BOARD, os).value)
  {
    if os != [] {
      var pre := os[..|os| - 1];
      ReachableBoardInv(add, pre);
      ApplyKeepsInv(add, ApplyAll(add, EMPTY_BOARD, pre).value, os[|os| - 1]);
    }
  }

  /** The standard tier's tag is unanimity over the cases that carried an observation. */
  lemma {:induction false} RowGroundingIsObservedUnanimity(add: AddCost, os: seq<CaseOutcome>, b: bool)
    ensures Row(add, os).groundingObserved <==> GroundingStates(os) != []
    ensures Row(add, os).grounding == GroundingTag(GroundingStates(os))
    ensures Row(add, os).grounding == Some(b) <==>
            GroundingStates(os) != [] && forall i :: 0 <= i < |GroundingStates(os)| ==> GroundingStates(os)[i] == Some(b)
  {
    if os != [] {
      var n := |os| - 1;
      RowGroundingIsObservedUnanimity(add, os[..n], b);
      var proj := (o: CaseOutcome) => o.grounding;
      var seen := (g: Option<bool>) => g.Some?;
      assert os == os[..n] + [os[n]];
      MapConcat(proj, os[..n], [os[n]]);
      assert Map(proj, [os[n]]) == [os[n].grounding];
      FilterConcat(seen, Map(proj, os[..n]), [os[n].grounding]);
      FilterCons(seen, os[n].grounding, []);
      var gs := GroundingStates(os[..n]);
      assert os[n].grounding.Some? ==> GroundingStates(os) == gs + [os[n].grounding];
      assert (gs + [os[n].grounding])[..|gs|] == gs;
      if !os[n].grounding.Some? { assert GroundingStates(os) == gs + [] == gs; }
    }
    GroundingTagIsUnanimity(GroundingStates(os), b);
  }
}
