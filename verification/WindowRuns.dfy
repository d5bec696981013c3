/** Whole runs of the window: safety over every fed run, what each feeding rule
    is exactly worth, and down-only runs, which need no rule at all. */
module WindowRuns {
  import opened Basics
  import opened Listing
  import opened WindowSpec
  import opened WindowSlices
  import opened WindowLaws
  import opened WindowDemand

  function Start(t: Tuning): Session {
    Session(Opened(t), Down(0))
  }

  /** Each event is possible where it happens. */
  predicate Possibles(x: Session, t: Tuning, L: seq<Row>, es: seq<Event>)
    decreases |es|
  {
    es != [] ==> Possible(x, L, es[0]) && Possibles(Step(x, t, L, es[0]), t, L, es[1..])
  }

  function Run(x: Session, t: Tuning, L: seq<Row>, es: seq<Event>): Session
    requires Possibles(x, t, L, es)
    decreases |es|
  {
    if es == [] then x else Run(Step(x, t, L, es[0]), t, L, es[1..])
  }

  /** Each event keeps its feeding rule where it happens. */
  predicate Fed(x: Session, t: Tuning, L: seq<Row>, es: seq<Event>)
    requires Possibles(x, t, L, es)
    decreases |es|
  {
    es != [] ==> Fits(x, t, L, es[0]) && Fed(Step(x, t, L, es[0]), t, L, es[1..])
  }

  lemma {:induction false} RunKeeps(x: Session, t: Tuning, L: seq<Row>, es: seq<Event>)
    requires Ascending(L) && Inv(x, L) && Possibles(x, t, L, es) && Fed(x, t, L, es)
    ensures Inv(Run(x, t, L, es), L)
    decreases |es|
  {
    hide Step, Inv, Fits, Possible;
    if es != [] {
      StepKeeps(x, t, L, es[0]);
      RunKeeps(Step(x, t, L, es[0]), t, L, es[1..]);
    }
  }

  lemma {:induction false} StartInv(t: Tuning, L: seq<Row>)
    requires Ascending(L)
    ensures Inv(Start(t), L)
  {
    KeyBeforeLists(L, 0);
  }

  /** In every state any fed session reaches, each slot shows its own listing row
      or a blank, the window ends inside the listing, and every checkpoint of the
      bounded ring is a true binding with the head's entry among them. */
  lemma {:induction false} SessionSafe(t: Tuning, L: seq<Row>, es: seq<Event>, i: nat)
    requires Ascending(L) && Possibles(Start(t), t, L, es) && Fed(Start(t), t, L, es)
    ensures var s := Run(Start(t), t, L, es).s;
            && s.Edge() <= |L|
            && (s.At(i) == None || (i < |L| && s.At(i) == Some(L[i])))
            && s.rows == Held(s.all)
            && Ring(s.tops, L)
  {
    hide Step, Fits, Possible, Held, Ring;
    StartInv(t, L);
    RunKeeps(Start(t), t, L, es);
    var s := Run(Start(t), t, L, es).s;
    if s.base <= i < s.Edge() {
      assert SlotTrue(s.all, s.base, L, i - s.base);
    }
  }

  // ---------- demand ----------

  /** The demand engine fires only while no fetch is in flight; a climb asks from
      a true checkpoint at or above the view; a down demand from inside the canvas
      finds the window anchored, and once a walk settled done it means the held
      edge is short of the listing. */
  lemma {:induction false} DemandSound(x: Session, t: Tuning, L: seq<Row>, absTop: real, absBot: real, backoff: bool)
    requires Ascending(L) && Inv(x, L) && 0.0 <= absTop <= absBot
    ensures var d := Need(x.s, t, absTop, absBot, backoff);
            && (d != Nothing ==> x.wire == Idle)
            && (d == WantDown && x.s.streamDone ==> x.s.Edge() < |L|)
            && (d == WantDown && absTop <= x.s.Edge() as real ==> Anchored(x.s))
            && (d.WantUp? ==> IsBinding(L, d.cp) && d.cp.index <= Floor(absTop) && Owes(x.s, t, absTop, absBot))
            && (x.s.streamDone ==> x.s.universe == Some(|L|))
  {
    hide Missing, Owes, TopBelow, Held, Ring, Anchored;
    MissingOwes(x.s, t, absTop, absBot);
    TopBelowTightest(x.s.tops, L, Floor(absTop));
    if Need(x.s, t, absTop, absBot, backoff) == WantDown && absTop <= x.s.Edge() as real {
      DialsAnchored(x.s, t, absTop, absBot, backoff);
    }
  }

  /** In a sound session the demand is exactly what the slots owe: idle and not backing
      off it asks upward when the view is owed a slot, from the tightest checkpoint at
      or above the view, else downward when the edge is within reach and the listing
      is not known to end there. */
  lemma {:induction false} DemandExact(x: Session, t: Tuning, L: seq<Row>, absTop: real, absBot: real, backoff: bool)
    requires Inv(x, L) && 0.0 <= absTop <= absBot
    ensures var d := Need(x.s, t, absTop, absBot, backoff);
            var free := x.wire == Idle && !backoff;
            && (d.WantUp? <==> free && Owes(x.s, t, absTop, absBot))
            && (d.WantUp? ==> d.cp in x.s.tops && d.cp.index <= Floor(absTop)
                              && forall cp | cp in x.s.tops && cp.index <= Floor(absTop) :: cp.index <= d.cp.index)
            && (d == WantDown <==>
                && free && !Owes(x.s, t, absTop, absBot)
                && absBot + t.prefetch as real >= x.s.Edge() as real
                && (x.s.streamDone ==> x.s.Edge() < |L|))
  {
    hide Owes, Missing, TopBelow, Held, IsBinding, Slots;
    NeedExact(x.s, t, absTop, absBot, backoff);
    TopBelowTightest(x.s.tops, L, Floor(absTop));
  }

  /** An engine at rest means there is nothing to fetch: idle and not backing off,
      it asks for nothing only when every slot in view up to the edge is held and
      the edge is the listing's known end or out of the prefetch's reach. */
  lemma {:induction false} QuietMeansShown(x: Session, t: Tuning, L: seq<Row>, absTop: real, absBot: real, i: nat)
    requires Inv(x, L) && 0.0 <= absTop <= absBot && x.wire == Idle
    requires Need(x.s, t, absTop, absBot, false) == Nothing
    ensures Floor(absTop) <= i <= Floor(absBot) && i < x.s.Edge() ==> x.s.At(i) == Some(L[i])
    ensures (x.s.streamDone && x.s.Edge() == |L|) || absBot + t.prefetch as real < x.s.Edge() as real
  {
    hide TopBelow, Held, Ring, Buffer;
    var reach := absTop - t.prefetch as real;
    assert Floor(if reach > 0.0 then reach else 0.0) <= Floor(absTop);
    if Floor(absTop) <= i <= Floor(absBot) && i < x.s.Edge() {
      assert x.s.base <= i;
      assert SlotTrue(x.s.all, x.s.base, L, i - x.s.base);
      assert x.s.all[i - x.s.base] != None;
    }
  }

  /** What a settle of the down fetch means for the demand engine: a done one ends
      the downward side for good - as long as its verdict stands, a look asks for
      rows below only while a trim keeps the edge above where it settled - while
      any other leaves the next look near the edge as free to ask as before. */
  lemma {:induction false} SettleDownMeans(s: State, t: Tuning, done: bool, later: State, absTop: real, absBot: real)
    requires s.streaming && 0.0 <= absTop <= absBot
    requires var r := SettleDown(s, done); later.streamDone == r.streamDone && later.universe == r.universe
    ensures Need(later, t, absTop, absBot, false) == WantDown <==>
            && later.streaming && !later.needDown && !later.needUp
            && !Owes(later, t, absTop, absBot) && absBot + t.prefetch as real >= later.Edge() as real
            && if done then later.Edge() < s.Edge()
               else !s.streamDone || (s.universe.Some? && later.Edge() < s.universe.value)
    ensures !SettleDown(s, done).needDown && SettleDown(s, done).rows == Held(SettleDown(s, done).all)
  {
    hide Missing, Owes, TopBelow, Held;
    MissingOwes(later, t, absTop, absBot);
  }

  // ---------- what the feeding rules are worth ----------

  lemma {:induction false} AppendLast(all: seq<Cell>, rows: seq<Row>)
    requires rows != []
    ensures var r := AppendCells(all, rows);
            r != [] && r[|r| - 1] == Some(rows[|rows| - 1]) && |r| == |all| - Min(Band(all), |rows|) + |rows|
  {
    hide Band;
    SomesAt(rows, |rows| - 1);
  }

  lemma {:induction false} LandLast(s: State, t: Tuning, acc: seq<Row>, safe: nat)
    requires acc != []
    ensures var r := Land(s, t, acc, safe);
            && r.all != [] && r.all[|r.all| - 1] == Some(acc[|acc| - 1])
            && r.Edge() == s.Edge() - Min(Band(s.all), |acc|) + |acc|
            && r.winTarget == s.winTarget && r.needDown == s.needDown
  {
    hide Band, AppendCells, PushTop, CutTops, Without, LastKey;
    AppendLast(s.all, acc);
  }

  /** Whatever the page, its last row taken ends up in the window's last slot. */
  lemma {:induction false} DownPageLast(s: State, t: Tuning, rows: seq<Row>, done: bool, safe: nat)
    requires rows != [] && s.Edge() < s.winTarget && s.needDown
    ensures var r := DownPage(s, t, rows, done, safe);
            var k := AcceptCount(s, |rows|);
            var taken := if done then |rows| else k;
            && 0 < taken <= |rows|
            && r.all != [] && r.all[|r.all| - 1] == Some(rows[taken - 1])
            && r.Edge() == s.Edge() - Min(Band(s.all), k) + taken
            && (r.needDown <==> !done && r.Edge() < s.winTarget)
            && Band(r.all) == 0
  {
    hide Band, AppendCells, Land, Held;
    var k := AcceptCount(s, |rows|);
    LandLast(s, t, rows[..k], safe);
    var s1 := Land(s, t, rows[..k], safe);
    BandZero(s1.all);
    if done && k < |rows| {
      AppendLast(s1.all, rows[k..]);
    } else if done {
      AppendNothing(s1, rows[k..]);
    }
    BandZero(DownPage(s, t, rows, done, safe).all);
  }

  lemma {:induction false} BandZero(all: seq<Cell>)
    requires all != [] && all[|all| - 1].Some?
    ensures Band(all) == 0
  {
  }

  lemma {:induction false} AppendNothing(s: State, rows: seq<Row>)
    requires rows == []
    ensures AppendRows(s, rows) == s
  {
    assert s.all[..|s.all|] + Somes(rows) == s.all;
    assert s.rows + rows == s.rows;
  }

  lemma {:induction false} LastSlotTells(all: seq<Cell>, base: nat, L: seq<Row>, m: nat)
    requires Ascending(L) && Slots(all, base, L) && all != [] && m < |L| && all[|all| - 1] == Some(L[m])
    ensures m == base + |all| - 1
  {
    assert SlotTrue(all, base, L, |all| - 1);
    AscendingDistinct(L, m, base + |all| - 1);
  }

  /** A down page keeps every slot true exactly when it is empty or what is let in
      covers the band it meets; on any other its last row lands in another slot. */
  lemma {:induction false} DownSlotsExact(x: Session, t: Tuning, L: seq<Row>, e: Event)
    requires Ascending(L) && Inv(x, L) && e.DownRows? && Possible(x, L, e)
    ensures var r := Step(x, t, L, e).s;
            Slots(r.all, r.base, L) <==> e.n == 0 || Min(e.n, x.s.winTarget - x.s.Edge()) >= Band(x.s.all)
  {
    hide DownPage, Band, Held, Ring, Ascending;
    var r := Step(x, t, L, e).s;
    if e.n == 0 || AcceptCount(x.s, e.n) >= Band(x.s.all) {
      CoveringPageSlots(x, t, L, e);
    } else if Slots(r.all, r.base, L) {
      var taken := if e.done then e.n else AcceptCount(x.s, e.n);
      DownPageLast(x.s, t, PageRows(x, L, e), e.done, e.safe);
      LastSlotTells(r.all, r.base, L, x.wire.next + taken - 1);
    }
  }

  lemma {:induction false} CoveringPageSlots(x: Session, t: Tuning, L: seq<Row>, e: Event)
    requires Ascending(L) && Inv(x, L) && e.DownRows? && Possible(x, L, e)
    requires e.n == 0 || AcceptCount(x.s, e.n) >= Band(x.s.all)
    ensures Sound(Step(x, t, L, e).s, L)
  {
    hide AppendStreamRows, FinishPage, Band, Held, Slots, Ring;
    var next := x.wire.next;
    StreamAligned(x.s, t, L, e.n, e.safe);
    var s1 := AppendStreamRows(x.s, t, L[next..next + e.n], e.safe);
    FinishPageKeeps(s1, L, AcceptCount(x.s, e.n), e.n, next, e.done);
  }

  /** A wire a down page leaves open goes on at the first owed row exactly when the
      page was empty, or no row of it was cut off - or, of one shorter than the
      band let in, when it was just as long as the band. */
  lemma {:induction false} DownWireExact(x: Session, t: Tuning, L: seq<Row>, e: Event)
    requires Ascending(L) && Inv(x, L) && e.DownRows? && Possible(x, L, e)
    ensures var y := Step(x, t, L, e);
            var room := x.s.winTarget - x.s.Edge();
            y.wire.Down? ==>
              (y.wire.next == y.s.Edge() - Band(y.s.all) <==>
               e.n == 0 || (if Min(e.n, room) >= Band(x.s.all) then e.n <= room else e.n == Band(x.s.all)))
  {
    hide DownPage, Band, Held, Ring, Ascending, Slots;
    if e.n == 0 {
      DownPageKeeps(x, t, L, e);
    } else {
      DownPageLast(x.s, t, PageRows(x, L, e), e.done, e.safe);
    }
  }

  lemma {:induction false} MisfitBreaks(x: Session, t: Tuning, L: seq<Row>, e: Event)
    requires Ascending(L) && Inv(x, L) && e.DownRows? && Possible(x, L, e) && Inv(Step(x, t, L, e), L)
    ensures DownFits(x.s, e.n, e.done)
  {
    hide DownPage, Band, Held, Ring, Ascending;
    if e.n > 0 {
      var taken := if e.done then e.n else AcceptCount(x.s, e.n);
      DownPageLast(x.s, t, PageRows(x, L, e), e.done, e.safe);
      var r := Step(x, t, L, e).s;
      LastSlotTells(r.all, r.base, L, x.wire.next + taken - 1);
    }
  }

  /** A down page keeps the session sound exactly when it fits: on any other
      page the last row lands in another row's slot, or the wire runs on past
      rows the window never took. */
  lemma {:induction false} DownPageExact(x: Session, t: Tuning, L: seq<Row>, e: Event)
    requires Ascending(L) && Inv(x, L) && e.DownRows? && Possible(x, L, e)
    ensures Inv(Step(x, t, L, e), L) <==> DownFits(x.s, e.n, e.done)
  {
    hide Step, Inv, DownFits;
    if DownFits(x.s, e.n, e.done) {
      DownPageKeeps(x, t, L, e);
    } else if Inv(Step(x, t, L, e), L) {
      MisfitBreaks(x, t, L, e);
    }
  }

  /** The wire dialled for a down demand delivers the first owed row exactly when
      the window is anchored - which every look inside the canvas sees to. */
  lemma {:induction false} DialDownExact(x: Session, t: Tuning, L: seq<Row>)
    requires Ascending(L) && Inv(x, L) && x.wire == Idle
    ensures Inv(Dial(x, t, L, WantDown), L) <==> Anchored(x.s)
  {
    hide Band, Held, Ring, LastKey;
    ResumeExact(x.s, L);
  }
}
