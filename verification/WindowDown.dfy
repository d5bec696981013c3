/** Sessions that only walk down: whatever the page sizes, budgets, trims,
    failures and views, pausing and resuming loses and repeats nothing. */
module WindowDown {
  import opened Basics
  import opened Listing
  import opened WindowSpec
  import opened WindowSlices
  import opened WindowLaws
  import opened WindowRuns

  predicate IsReal(all: seq<Cell>, i: nat)
    requires i < |all|
  {
    all[i].Some?
  }

  /** A slice without tombstones. */
  ghost predicate Whole(all: seq<Cell>) {
    forall i | 0 <= i < |all| :: IsReal(all, i)
  }

  lemma {:induction false} WholeBand(all: seq<Cell>)
    requires Whole(all)
    ensures Band(all) == 0
  {
    if all != [] {
      assert IsReal(all, |all| - 1);
    }
  }

  lemma {:induction false} WholeAppend(all: seq<Cell>, rows: seq<Row>)
    requires Whole(all)
    ensures Whole(AppendCells(all, rows))
  {
    hide Somes, Band;
    WholeBand(all);
    var r := AppendCells(all, rows);
    forall i | 0 <= i < |r|
      ensures IsReal(r, i)
    {
      if i < |all| {
        assert IsReal(all, i);
      } else {
        SomesAt(rows, i - |all|);
      }
    }
  }

  lemma {:induction false} WholeLand(s: State, t: Tuning, acc: seq<Row>, safe: nat)
    requires Whole(s.all)
    ensures Whole(Land(s, t, acc, safe).all)
  {
    hide AppendCells, PushTop, CutTops, Without, LastKey;
    WholeAppend(s.all, acc);
    var mid := AppendCells(s.all, acc);
    var cut := CutOf(PushEdge(AppendRows(s, acc)), t, safe);
    if acc != [] && cut > 0 {
      var r := mid[cut..];
      forall i | 0 <= i < |r|
        ensures IsReal(r, i)
      {
        assert IsReal(mid, cut + i);
      }
    }
  }

  lemma {:induction false} WholePage(s: State, t: Tuning, rows: seq<Row>, done: bool, safe: nat)
    requires Whole(s.all)
    ensures Whole(DownPage(s, t, rows, done, safe).all)
  {
    hide AppendCells, Land, Held, Whole;
    var k := AcceptCount(s, |rows|);
    WholeLand(s, t, rows[..k], safe);
    WholeAppend(Land(s, t, rows[..k], safe).all, rows[k..]);
  }

  predicate DownOnly(es: seq<Event>) {
    forall e | e in es :: e.Look? || e.DownRows? || e.DownFails?
  }

  /** The rows a step takes from the wire. */
  function Taken(x: Session, L: seq<Row>, e: Event): seq<Row>
    requires Possible(x, L, e)
  {
    if e.DownRows? then PageRows(x, L, e)[..if e.done then e.n else AcceptCount(x.s, e.n)] else []
  }

  function TakenAll(x: Session, t: Tuning, L: seq<Row>, es: seq<Event>): seq<Row>
    requires Possibles(x, t, L, es)
    decreases |es|
  {
    if es == [] then [] else Taken(x, L, es[0]) + TakenAll(Step(x, t, L, es[0]), t, L, es[1..])
  }

  /** A whole window fits every page and every demand, stays whole, and its edge
      moves by exactly the rows taken; a page leaves the fetch open short of the
      target, or closes it on the target, or - its last page done - on the end. */
  lemma {:induction false} DownStepWhole(x: Session, t: Tuning, L: seq<Row>, e: Event)
    requires Ascending(L) && Inv(x, L) && Whole(x.s.all) && Possible(x, L, e) && DownOnly([e])
    ensures Fits(x, t, L, e) && Inv(Step(x, t, L, e), L) && Whole(Step(x, t, L, e).s.all)
    ensures Step(x, t, L, e).s.Edge() == x.s.Edge() + |Taken(x, L, e)| <= |L|
    ensures Taken(x, L, e) == L[x.s.Edge()..x.s.Edge() + |Taken(x, L, e)|]
    ensures e.DownRows? ==> PageEnds(x.s, Step(x, t, L, e), L, e.done)
  {
    assert e in [e];
    WholeBand(x.s.all);
    if e.DownRows? {
      DownRowsWhole(x, t, L, e);
    } else {
      hide Step, Inv, Whole, Need;
      QuietStep(x, t, L, e);
      StepKeeps(x, t, L, e);
    }
  }

  lemma {:induction false} QuietStep(x: Session, t: Tuning, L: seq<Row>, e: Event)
    requires Inv(x, L) && Possible(x, L, e) && (e.Look? || e.DownFails?)
    ensures Step(x, t, L, e).s.all == x.s.all && Step(x, t, L, e).s.base == x.s.base
    ensures Step(x, t, L, e).s.Edge() <= |L| && Taken(x, L, e) == []
  {
    hide Held, Ring, Need, TopBelow, LastKey;
  }

  ghost predicate PageEnds(s: State, y: Session, L: seq<Row>, done: bool) {
    if done then y.wire == Idle && y.s.Edge() == |L|
    else if y.wire == Idle then y.s.Edge() == s.winTarget
    else y.wire == Down(y.s.Edge()) && y.s.Edge() < s.winTarget
  }

  lemma {:induction false} DownRowsWhole(x: Session, t: Tuning, L: seq<Row>, e: Event)
    requires Ascending(L) && Inv(x, L) && Whole(x.s.all) && Possible(x, L, e) && e.DownRows?
    ensures Fits(x, t, L, e) && Inv(Step(x, t, L, e), L) && Whole(Step(x, t, L, e).s.all)
    ensures Step(x, t, L, e).s.Edge() == x.s.Edge() + |Taken(x, L, e)| <= |L|
    ensures Taken(x, L, e) == L[x.s.Edge()..x.s.Edge() + |Taken(x, L, e)|]
    ensures PageEnds(x.s, Step(x, t, L, e), L, e.done)
  {
    hide Held, Slots, Ring, Whole, DownPage, Band;
    WholeBand(x.s.all);
    WholePage(x.s, t, PageRows(x, L, e), e.done, e.safe);
    WholeBand(Step(x, t, L, e).s.all);
    DownPageLeaves(x.s, t, L, e.n, e.done, e.safe);
    DownPageKeeps(x, t, L, e);
    SplitPage(L, x.wire.next, e.n, if e.done then e.n else AcceptCount(x.s, e.n));
  }

  lemma {:induction false} DownRunFrom(x: Session, t: Tuning, L: seq<Row>, es: seq<Event>)
    requires Ascending(L) && Inv(x, L) && Whole(x.s.all) && DownOnly(es) && Possibles(x, t, L, es)
    ensures Fed(x, t, L, es) && Inv(Run(x, t, L, es), L) && Whole(Run(x, t, L, es).s.all)
    ensures x.s.Edge() <= Run(x, t, L, es).s.Edge() <= |L|
    ensures TakenAll(x, t, L, es) == L[x.s.Edge()..Run(x, t, L, es).s.Edge()]
    decreases |es|
  {
    hide Step, Fits, Possible, Held, Ring, Taken, Whole, Wired;
    if es != [] {
      assert DownOnly([es[0]]) && DownOnly(es[1..]);
      DownStepWhole(x, t, L, es[0]);
      var y := Step(x, t, L, es[0]);
      DownRunFrom(y, t, L, es[1..]);
      JoinSlices(L, x.s.Edge(), y.s.Edge(), Run(x, t, L, es).s.Edge());
    }
  }

  /** Pause and resume lose and repeat nothing: over any down-only session the
      rows taken, window after window, are exactly the listing's head up to the
      edge, and the window holds its stretch of them without a gap. */
  lemma {:induction false} DownRunsTakeThePrefix(t: Tuning, L: seq<Row>, es: seq<Event>)
    requires Ascending(L) && DownOnly(es) && Possibles(Start(t), t, L, es)
    ensures var y := Run(Start(t), t, L, es);
            && Fed(Start(t), t, L, es) && Inv(y, L) && Whole(y.s.all)
            && y.s.Edge() <= |L|
            && TakenAll(Start(t), t, L, es) == L[..y.s.Edge()]
  {
    hide Step, Fits, Possible, Held, Ring, Taken;
    StartInv(t, L);
    DownRunFrom(Start(t), t, L, es);
  }

  predicate PagesOnly(es: seq<Event>) {
    forall e | e in es :: e.DownRows?
  }

  lemma {:induction false} TargetStands(x: Session, t: Tuning, L: seq<Row>, e: Event)
    requires Ascending(L) && Inv(x, L) && Whole(x.s.all) && Possible(x, L, e) && e.DownRows?
    ensures Step(x, t, L, e).s.winTarget == x.s.winTarget
  {
    hide Held, Slots, Ring, Whole, DownPage, Band;
    WholeBand(x.s.all);
    DownPageLeaves(x.s, t, L, e.n, e.done, e.safe);
  }

  lemma {:induction false} FetchEnds(x: Session, t: Tuning, L: seq<Row>, es: seq<Event>)
    requires Ascending(L) && Inv(x, L) && Whole(x.s.all) && x.wire.Down? && PagesOnly(es) && Possibles(x, t, L, es)
    ensures var y := Run(x, t, L, es);
            && (y.wire == Idle ==> y.s.Edge() == x.s.winTarget || y.s.Edge() == |L|)
            && (y.wire != Idle ==> y.s.Edge() < x.s.winTarget)
    decreases |es|
  {
    hide Step, Held, Ring, Slots, Whole;
    if es != [] {
      var e := es[0];
      assert e in es && DownOnly([e]);
      DownStepWhole(x, t, L, e);
      TargetStands(x, t, L, e);
      var y := Step(x, t, L, e);
      assert PagesOnly(es[1..]);
      if y.wire.Down? {
        FetchEnds(y, t, L, es[1..]);
      } else {
        NoMorePages(y, t, L, es[1..]);
      }
    }
  }

  lemma {:induction false} NoMorePages(x: Session, t: Tuning, L: seq<Row>, es: seq<Event>)
    requires x.wire == Idle && PagesOnly(es) && Possibles(x, t, L, es)
    ensures es == []
  {
    if es != [] {
      FirstIsPage(es);
    }
  }

  lemma {:induction false} FirstIsPage(es: seq<Event>)
    requires PagesOnly(es) && es != []
    ensures es[0].DownRows?
  {
    assert es[0] in es;
  }

  /** One demand brings one window: from the look that dials, whatever the page sizes,
      the fetch closes with the edge exactly one window's rows further, or on the
      listing's end; till then it is short of that. */
  lemma {:induction false} FetchBringsWindow(x: Session, t: Tuning, L: seq<Row>, look: Event, es: seq<Event>)
    requires Ascending(L) && Inv(x, L) && Whole(x.s.all) && look.Look? && Possible(x, L, look) && PagesOnly(es)
    requires var y := Step(x, t, L, look); y.wire.Down? && x.wire == Idle && Possibles(y, t, L, es)
    ensures var y := Run(Step(x, t, L, look), t, L, es);
            && (y.wire == Idle ==> y.s.Edge() == x.s.Edge() + t.win || y.s.Edge() == |L|)
            && (y.wire != Idle ==> y.s.Edge() < x.s.Edge() + t.win)
  {
    hide Held, Ring, Slots, Whole, Missing, TopBelow, LastKey, ListAfter;
    assert look in [look] && DownOnly([look]);
    DownStepWhole(x, t, L, look);
    FetchEnds(Step(x, t, L, look), t, L, es);
  }

  /** And the opening brings the first one. */
  lemma {:induction false} OpeningBringsFirst(t: Tuning, L: seq<Row>, es: seq<Event>)
    requires Ascending(L) && PagesOnly(es) && Possibles(Start(t), t, L, es)
    ensures var y := Run(Start(t), t, L, es);
            && (y.wire == Idle ==> y.s.Edge() == t.first || y.s.Edge() == |L|)
            && (y.wire != Idle ==> y.s.Edge() < t.first)
  {
    hide Step;
    StartInv(t, L);
    FetchEnds(Start(t), t, L, es);
  }
}
