/** Scrolled sessions that end with a row in another row's slot, a view one row tall:
    every event but the last keeps the feeding rules, every scroll position is one
    the scroller gives, and every render takes its look. */
module WindowWitness {
  import opened Basics
  import opened Listing
  import opened WindowSpec
  import opened WindowSlices
  import opened WindowSeat
  import opened WindowLaws
  import opened WindowRuns
  import opened WindowScroll

  // ---------- a state without its ring and display rows ----------

  /** The part of a state the slots depend on. */
  function Core(s: State): State {
    s.(tops := [], rows := [])
  }

  function Bare(all: seq<Cell>, base: nat, target: nat): State {
    State(all, base, [], [], target, true, false, None, false, false, false, false, [], 0, 0)
  }

  lemma {:induction false} CutHeadCore(s: State, cut: nat)
    requires cut <= |s.all|
    ensures Core(CutHead(s, cut)) == Core(s).(all := s.all[cut..], base := s.base + cut)
  {
    hide CutTops, Without;
  }

  lemma {:induction false} AppendCore(s: State, acc: seq<Row>)
    ensures Core(PushEdge(AppendRows(s, acc))) == Core(s).(all := AppendCells(s.all, acc))
  {
    hide AppendCells, PushTop, LastKey;
  }

  /** The slice behind a head cut of c slots. */
  function Shifted(c: State, cut: nat): State
    requires cut <= |c.all|
  {
    c.(all := c.all[cut..], base := c.base + cut)
  }

  lemma {:induction false} TrimTopCore(s: State, t: Tuning, safe: nat)
    ensures Core(TrimTop(s, t, safe)) == Shifted(Core(s), CutOf(s, t, safe))
  {
    hide WindowSpec.CutHead;
    var cut := CutOf(s, t, safe);
    if cut > 0 {
      CutHeadCore(s, cut);
    } else {
      assert s.all[0..] == s.all;
    }
  }

  lemma {:induction false} LandCore(s: State, t: Tuning, acc: seq<Row>, safe: nat, cells: seq<Cell>)
    requires acc != [] && cells == AppendCells(s.all, acc)
    ensures Core(Land(s, t, acc, safe)) == Shifted(Core(s).(all := cells), Min(Max(|cells| - t.max, 0), safe))
  {
    hide AppendRows, AppendCells, PushEdge, TrimTop, Shifted;
    AppendCore(s, acc);
    TrimTopCore(PushEdge(AppendRows(s, acc)), t, safe);
  }

  /** A page within the window's room: appended, trimmed, settled where due. */
  function DownCore(c: State, t: Tuning, cells: seq<Cell>, done: bool, safe: nat): State {
    var m := Shifted(c.(all := cells), Min(Max(|cells| - t.max, 0), safe));
    if done then m.(needDown := false, streamDone := true, universe := Some(m.Edge()))
    else if m.WindowFull() then m.(needDown := false) else m
  }

  lemma {:induction false} DownPageCore(s: State, t: Tuning, rows: seq<Row>, done: bool, safe: nat, cells: seq<Cell>)
    requires rows != [] && s.Edge() + |rows| <= s.winTarget && s.streaming
    requires cells == AppendCells(s.all, rows)
    ensures Core(DownPage(s, t, rows, done, safe)) == DownCore(Core(s), t, cells, done, safe)
  {
    hide Land, Held, AppendCells, AppendRows, Core;
    assert AcceptCount(s, |rows|) == |rows|;
    assert rows[..|rows|] == rows && rows[|rows|..] == [];
    LandCore(s, t, rows, safe, cells);
    var m := Land(s, t, rows, safe);
    AppendNothing(m, rows[|rows|..]);
    assert DownPage(s, t, rows, done, safe) == FinishPage(m, [], done);
    CoreFields(s);
    CoreFields(m);
    CoreFields(FinishPage(m, [], done));
  }

  /** The core reads like the state itself. */
  lemma {:induction false} CoreFields(s: State)
    ensures Core(s) == State(s.all, s.base, [], [], s.winTarget, s.streaming, s.streamDone, s.universe,
                             s.needDown, s.needUp, s.upHit, s.upDone, s.upBuf, s.upStart, s.upScanned)
  {
  }

  /** A settled climb, its seated cells given. */
  function SettleCore(c: State, t: Tuning, cells: seq<Cell>, base: nat, safe: nat): State {
    var cut := Min(Max(|cells| - t.max, 0), safe);
    c.(all := cells[..|cells| - cut], base := base, upBuf := [], needUp := false, upHit := false, upScanned := 0)
  }

  lemma {:induction false} SettleUpCore(s: State, t: Tuning, safe: nat)
    requires s.upBuf != []
    ensures Core(SettleUp(s, t, safe)) == SettleCore(Core(s), t, Seat(s).all, Seat(s).base, safe)
  {
    hide SeatCells, PushTop, Held, CutTail;
    var m := Landed(s);
    var cut := CutOf(m, t, safe);
    CutTailCore(m, cut);
    assert m.all[..|m.all|] == m.all;
  }

  lemma {:induction false} CutTailCore(s: State, cut: nat)
    requires cut <= |s.all|
    ensures Core(CutTail(s, cut)) == Core(s).(all := s.all[..|s.all| - cut])
  {
    hide Without;
  }

  /** A back page, its walk given. */
  function BackCore(c: State, rows: seq<Row>, done: bool, at: nat, w: Walk): State
    requires w.take <= w.stop <= |rows|
  {
    c.(upDone := c.upDone || done, upHit := c.upHit || w.hit, upScanned := w.scanned,
       upStart := if c.upBuf == [] && w.take > 0 then at + w.stop - w.take else c.upStart,
       upBuf := c.upBuf + rows[w.stop - w.take..w.stop])
  }

  lemma {:induction false} BackPageCore(s: State, t: Tuning, rows: seq<Row>, done: bool, at: nat, w: Walk)
    requires w == WalkPage(s, t, at, |rows|)
    ensures Core(AppendBackRows(s, t, rows, done, at)) == BackCore(Core(s), rows, done, at, w)
  {
    hide PushTop, WalkPage;
  }

  lemma {:induction false} SeatCore(s: State)
    ensures Seat(s).all == Seat(Core(s)).all && Seat(s).base == Seat(Core(s)).base
  {
    hide SeatCells;
  }

  /** A back page that ends its climb. */
  lemma {:induction false} UpPageSettles(s: State, t: Tuning, rows: seq<Row>, done: bool, at: nat, safe: nat, w: Walk)
    requires w == WalkPage(s, t, at, |rows|)
    requires var b := BackCore(Core(s), rows, done, at, w); b.upBuf != [] && (done || BackfillDone(b, t))
    ensures var b := BackCore(Core(s), rows, done, at, w);
            Core(UpPage(s, t, rows, done, at, safe)) == SettleCore(b, t, Seat(b).all, Seat(b).base, safe)
  {
    hide SettleUp, Seat, AppendBackRows, WalkPage, BackCore;
    BackPageCore(s, t, rows, done, at, w);
    var r := AppendBackRows(s, t, rows, done, at);
    SettleUpCore(r, t, safe);
    SeatCore(r);
  }

  /** A back page the climb goes on behind. */
  lemma {:induction false} UpPageGoesOn(s: State, t: Tuning, rows: seq<Row>, at: nat, safe: nat, w: Walk)
    requires w == WalkPage(s, t, at, |rows|)
    requires !BackfillDone(BackCore(Core(s), rows, false, at, w), t)
    ensures Core(UpPage(s, t, rows, false, at, safe)) == BackCore(Core(s), rows, false, at, w)
  {
    hide SettleUp, AppendBackRows, WalkPage, BackCore;
    BackPageCore(s, t, rows, false, at, w);
  }

  // ---------- demand ----------

  /** A look that finds an owed slot dials a climb from the tightest checkpoint. */
  lemma {:induction false} LookClimbs(x: Session, t: Tuning, L: seq<Row>, top: real, bot: real, k: nat)
    requires Ascending(L) && Inv(x, L) && x.wire == Idle && 0.0 <= top <= bot && top <= x.s.Edge() as real
    requires Missing(x.s, t, top, bot) && k <= Floor(top) && HasIndex(x.s.tops, k)
    requires forall cp | cp in x.s.tops :: !(k < cp.index <= Floor(top))
    ensures var e := Look(top, bot, false);
            var y := Step(x, t, L, e);
            && Fits(x, t, L, e) && Inv(y, L)
            && Core(y.s) == Core(x.s).(needUp := true, upScanned := 0) && y.wire == Up(k)
            && y.s.tops == x.s.tops
  {
    hide Missing, TopBelow, Held, Buffer, ListAfter;
    TopBelowTightest(x.s.tops, L, Floor(top));
    StepKeeps(x, t, L, Look(top, bot, false));
  }

  /** A look near the edge with nothing owed in view dials the next down window. */
  lemma {:induction false} LookDives(x: Session, t: Tuning, L: seq<Row>, top: real, bot: real)
    requires Ascending(L) && Inv(x, L) && x.wire == Idle && 0.0 <= top <= bot && top <= x.s.Edge() as real
    requires !Missing(x.s, t, top, bot) && !x.s.streamDone && bot + t.prefetch as real >= x.s.Edge() as real
    ensures var e := Look(top, bot, false);
            var y := Step(x, t, L, e);
            && Fits(x, t, L, e) && Inv(y, L)
            && Core(y.s) == Core(x.s).(needDown := true, winTarget := x.s.Edge() + t.win)
            && y.wire == Down(x.s.Edge() - Band(x.s.all))
            && y.s.tops == x.s.tops
  {
    hide Missing, TopBelow, Held, Buffer, ListAfter, LastKey, Band;
    StepKeeps(x, t, L, Look(top, bot, false));
  }

  /** A look that owes nothing, away from the edge or during a fetch, does nothing. */
  lemma {:induction false} LookRests(x: Session, t: Tuning, L: seq<Row>, top: real, bot: real)
    requires 0.0 <= top <= bot && top <= x.s.Edge() as real
    requires x.s.needDown || x.s.needUp || (!Missing(x.s, t, top, bot) && bot + t.prefetch as real < x.s.Edge() as real)
    ensures Fits(x, t, L, Look(top, bot, false)) && Step(x, t, L, Look(top, bot, false)) == x
  {
    hide Missing, TopBelow;
  }

  lemma {:induction false} ZeroInRing(x: Session, L: seq<Row>)
    requires Inv(x, L)
    ensures exists cp :: cp in x.s.tops && cp.index == 0
  {
    hide IsBinding, Held, Slots, Wired;
    assert x.s.tops[0] in x.s.tops;
  }

  // ---------- moves ----------

  /** A fed scrolled session that ends on screen v. */
  ghost predicate Leads(t: Tuning, L: seq<Row>, ms: seq<Move>, v: Screen) {
    && After(t, L, 1.0, ms) == Some(v)
    && Possibles(Start(t), t, L, Events(ms)) && Fed(Start(t), t, L, Events(ms))
    && Run(Start(t), t, L, Events(ms)) == v.x
  }

  lemma {:induction false} NothingLeads(t: Tuning, L: seq<Row>)
    ensures Leads(t, L, [], Unscrolled(t, 1.0))
  {
  }

  lemma {:induction false} Then(t: Tuning, L: seq<Row>, ms: seq<Move>, v: Screen, m: Move)
    requires Leads(t, L, ms, v) && CanMove(v, t, L, m) && (m.Do? ==> Fits(v.x, t, L, m.e))
    ensures Leads(t, L, ms + [m], MoveOn(v, t, L, m))
  {
    hide Step, Fits, Possible, Scrolled, OnCanvas;
    AfterThen(t, L, 1.0, ms, m);
    if m.Do? {
      RunThen(Start(t), t, L, Events(ms), m.e);
    } else {
      assert Events(ms) + [] == Events(ms);
    }
  }

  /** A fed scrolled session whose next event, as scrolled, breaks its feeding rule;
      after it slot i shows the row of slot j. */
  ghost predicate Misplaces(t: Tuning, L: seq<Row>, ms: seq<Move>, e: Event, i: nat, j: nat) {
    && i != j && j < |L|
    && After(t, L, 1.0, ms).Some?
    && Possibles(Start(t), t, L, Events(ms)) && Fed(Start(t), t, L, Events(ms))
    && var v := After(t, L, 1.0, ms).value;
       && CanMove(v, t, L, Do(e)) && !Fits(v.x, t, L, e)
       && Possibles(Start(t), t, L, Events(ms) + [e])
       && Run(Start(t), t, L, Events(ms) + [e]).s.At(i) == Some(L[j])
  }

  lemma {:induction false} Misplaced(t: Tuning, L: seq<Row>, ms: seq<Move>, v: Screen, e: Event, i: nat, j: nat)
    requires Leads(t, L, ms, v) && CanMove(v, t, L, Do(e)) && !Fits(v.x, t, L, e) && i != j && j < |L|
    requires Core(Step(v.x, t, L, e).s).At(i) == Some(L[j])
    ensures Misplaces(t, L, ms, e, i, j)
  {
    hide Step, Fits, Possible, Scrolled;
    RunThen(Start(t), t, L, Events(ms), e);
  }

  // ---------- the ring of a short run ----------

  /** Few checkpoints, none at index 1. */
  predicate Lean(tops: seq<Checkpoint>, size: nat) {
    |tops| <= size && forall cp | cp in tops :: cp.index != 1
  }

  predicate HasIndex(tops: seq<Checkpoint>, k: nat) {
    exists cp :: cp in tops && cp.index == k
  }

  lemma {:induction false} PushTopLean(tops: seq<Checkpoint>, after: string, index: nat, size: nat)
    requires Lean(tops, size) && size < RING_MAX && index != 1
    ensures Lean(PushTop(tops, after, index), size + 1) && HasIndex(PushTop(tops, after, index), index)
  {
    PushTopSeats(tops, after, index);
  }

  lemma {:induction false} CutTopsLean(tops: seq<Checkpoint>, base: nat, head: seq<Cell>, size: nat)
    requires Lean(tops, size) && size < RING_MAX && head != [] && head[|head| - 1].Some? && base + |head| != 1
    ensures Lean(CutTops(tops, base, head), size + 1)
  {
    hide PushTop;
    BandZero(head);
    PushTopLean(tops, head[|head| - 1].value.key, base + |head|, size);
  }

  lemma {:induction false} DownPageLean(s: State, t: Tuning, rows: seq<Row>, safe: nat, cells: seq<Cell>, size: nat)
    requires Lean(s.tops, size) && size + 2 <= RING_MAX
    requires rows != [] && s.Edge() + |rows| <= s.winTarget && cells == AppendCells(s.all, rows)
    requires s.base + |cells| != 1
    requires var cut := Min(Max(|cells| - t.max, 0), safe);
             cut == 0 || (cut <= |cells| && cells[cut - 1].Some? && s.base + cut != 1)
    ensures Lean(DownPage(s, t, rows, false, safe).tops, size + 2)
  {
    hide PushTop, AppendCells, Without, LastKey, CutTops, Held;
    assert rows[..|rows|] == rows;
    var s1 := AppendRows(s, rows);
    PushTopLean(s1.tops, LastKey(s1.all), s1.Edge(), size);
    var s2 := PushEdge(s1);
    var cut := CutOf(s2, t, safe);
    if cut > 0 {
      CutTopsLean(s2.tops, s2.base, s2.all[..cut], size + 1);
    }
  }

  lemma {:induction false} UpPageLean(s: State, t: Tuning, rows: seq<Row>, at: nat, safe: nat, size: nat)
    requires Lean(s.tops, size) && size + 2 <= RING_MAX && rows != [] && at + |rows| != 1
    requires var r := AppendBackRows(s, t, rows, false, at);
             r.upBuf != [] && BackfillDone(r, t) && r.upStart + |r.upBuf| != 1
    ensures var r := AppendBackRows(s, t, rows, false, at);
            var y := UpPage(s, t, rows, false, at, safe);
            Lean(y.tops, size + 2) && HasIndex(y.tops, r.upStart + |r.upBuf|)
  {
    hide PushTop, SeatCells, Without, Held, WalkPage;
    PushTopLean(s.tops, rows[|rows| - 1].key, at + |rows|, size);
    var r := AppendBackRows(s, t, rows, false, at);
    PushTopLean(r.tops, r.upBuf[|r.upBuf| - 1].key, r.upStart + |r.upBuf|, size + 1);
  }

  // ---------- small slices ----------

  lemma {:induction false} BandIs(all: seq<Cell>, b: nat)
    requires b < |all| && all[|all| - b - 1].Some?
    requires forall i | |all| - b <= i < |all| :: all[i] == None
    ensures Band(all) == b
  {
    if b > 0 {
      BandIs(all[..|all| - 1], b - 1);
    }
  }

  lemma {:induction false} SomesAre(rows: seq<Row>)
    ensures |rows| == 1 ==> Somes(rows) == [Some(rows[0])]
    ensures |rows| == 2 ==> Somes(rows) == [Some(rows[0]), Some(rows[1])]
  {
    if |rows| == 1 {
      assert rows[1..] == [];
      assert Somes(rows) == [Some(rows[0])] + Somes(rows[1..]);
    }
    if |rows| == 2 {
      SomesAre(rows[1..]);
    }
  }

  /** One row appended to a slice whose band is known. */
  lemma {:induction false} AppendOne(all: seq<Cell>, row: Row, b: nat)
    requires Band(all) == b
    ensures AppendCells(all, [row]) == all[..|all| - Min(b, 1)] + [Some(row)]
  {
    hide Band;
    SomesAre([row]);
  }

  lemma {:induction false} WalkOwed(s: State, t: Tuning, at: nat, n: nat, k: nat, m: nat, scanned: nat)
    requires k <= m <= n && |s.upBuf| + m <= t.win && (m == n || |s.upBuf| + m == t.win)
    requires forall i | at <= i < at + m :: s.At(i) == None && i < s.Edge()
    ensures WalkBack(s, t, at, n, k, k, scanned) == Walk(m, m, false, scanned)
    decreases m - k
  {
    if k < m {
      WalkOwed(s, t, at, n, k + 1, m, scanned);
    }
  }

  lemma {:induction false} SomesCut(rows: seq<Row>, k: nat)
    requires k <= |rows|
    ensures Somes(rows)[k..] == Somes(rows[k..]) && Somes(rows)[..k] == Somes(rows[..k])
    ensures Somes(rows) == Somes(rows[..k]) + Somes(rows[k..])
  {
    hide Somes;
    forall i | 0 <= i < |rows|
      ensures Somes(rows)[i] == Some(rows[i])
    {
      SomesAt(rows, i);
    }
    forall i | 0 <= i < |rows| - k
      ensures Somes(rows[k..])[i] == Some(rows[k + i])
    {
      SomesAt(rows[k..], i);
    }
    forall i | 0 <= i < k
      ensures Somes(rows[..k])[i] == Some(rows[i])
    {
      SomesAt(rows[..k], i);
    }
  }

  lemma {:induction false} SomesFull(rows: seq<Row>)
    ensures forall i | 0 <= i < |rows| :: Somes(rows)[i].Some?
    ensures Band(Somes(rows)) == 0
  {
    hide Somes, Band;
    forall i | 0 <= i < |rows|
      ensures Somes(rows)[i].Some?
    {
      SomesAt(rows, i);
    }
    if rows != [] {
      BandIs(Somes(rows), 0);
    } else {
      BandEmpty();
    }
  }

  lemma {:induction false} BandEmpty()
    ensures Band([]) == 0
  {
  }

  // ---------- the opening all sessions share ----------

  ghost predicate Sits(v: Screen, L: seq<Row>, core: State, wire: Wire, top: real, due: bool) {
    && Inv(v.x, L) && Core(v.x.s) == core && v.x.wire == wire
    && v.top == top && v.tall == 1.0 && v.due == due
  }

  /** A first window of more than a climb's worth and a screen, a ceiling two rows
      above a climb's worth, and a listing that goes on behind two windows. */
  ghost predicate Small(t: Tuning, L: seq<Row>) {
    && Ascending(L) && t.win >= 2 && t.max == t.win + 2
    && t.first >= t.win + 3 && t.prefetch + 1 < t.first
    && t.first + t.win <= |L| && t.first + t.win <= t.cap
  }

  lemma {:induction false} FirstPage(t: Tuning, L: seq<Row>) returns (v: Screen)
    requires Small(t, L)
    ensures var u, e := Unscrolled(t, 1.0), DownRows(t.first, false, 0);
            && CanMove(u, t, L, Do(e)) && Fits(u.x, t, L, e) && v == MoveOn(u, t, L, Do(e))
            && Sits(v, L, Bare(Somes(L[..t.first]), 0, t.first), Idle, 0.0, true) && Lean(v.x.s.tops, 3)
  {
    hide Inv, DownPage, Somes, Core, Lean;
    var u, e := Unscrolled(t, 1.0), DownRows(t.first, false, 0);
    var rows := L[0..t.first];
    StartInv(t, L);
    StepKeeps(u.x, t, L, e);
    CoreFields(u.x.s);
    assert [] + Somes(rows) == Somes(rows) && Somes(rows)[0..] == Somes(rows);
    assert rows == L[..t.first];
    DownPageCore(u.x.s, t, rows, false, 0, Somes(rows));
    CoreFields(Step(u.x, t, L, e).s);
    StartLean(t);
    DownPageLean(u.x.s, t, rows, 0, Somes(rows), 1);
    v := MoveOn(u, t, L, Do(e));
  }

  lemma {:induction false} StartLean(t: Tuning)
    ensures Lean(Start(t).s.tops, 1)
  {
  }

  /** Right after it the view stands at the top and owes nothing. */
  lemma {:induction false} FirstLook(v: Screen, t: Tuning, L: seq<Row>) returns (r: Screen)
    requires Small(t, L) && Sits(v, L, Bare(Somes(L[..t.first]), 0, t.first), Idle, 0.0, true)
    ensures var e := Look(0.0, 1.0, false);
            CanMove(v, t, L, Do(e)) && Fits(v.x, t, L, e) && r == MoveOn(v, t, L, Do(e)) && r == v.(due := false)
  {
    hide Inv, Somes, Missing;
    CoreFields(v.x.s);
    NothingOwed(v.x.s, t, 0.0, 1.0, L[..t.first]);
    LookRests(v.x, t, L, 0.0, 1.0);
    r := MoveOn(v, t, L, Do(Look(0.0, 1.0, false)));
  }

  lemma {:induction false} NothingOwed(s: State, t: Tuning, top: real, bot: real, rows: seq<Row>)
    requires 0.0 <= top <= bot && s.all == Somes(rows) && s.base == 0
    ensures !Missing(s, t, top, bot)
  {
    SomesFull(rows);
  }

  /** The view goes to the window's last row, which dials the next window. */
  lemma {:induction false} ScrollDown(v: Screen, t: Tuning, L: seq<Row>) returns (u: Screen, r: Screen)
    requires Small(t, L) && Sits(v, L, Bare(Somes(L[..t.first]), 0, t.first), Idle, 0.0, false)
    ensures var f := t.first;
            var e := Look((f - 1) as real, f as real, false);
            && CanMove(v, t, L, Scroll((f - 1) as real)) && u == MoveOn(v, t, L, Scroll((f - 1) as real))
            && CanMove(u, t, L, Do(e)) && Fits(u.x, t, L, e) && r == MoveOn(u, t, L, Do(e))
            && Sits(r, L, Bare(Somes(L[..f]), 0, f + t.win).(needDown := true), Down(f), (f - 1) as real, false)
            && r.x.s.tops == v.x.s.tops
  {
    hide Inv, Somes, Missing, Band;
    var f := t.first;
    CoreFields(v.x.s);
    u := MoveOn(v, t, L, Scroll((f - 1) as real));
    NothingOwed(u.x.s, t, (f - 1) as real, f as real, L[..f]);
    SomesFull(L[..f]);
    LookDives(u.x, t, L, (f - 1) as real, f as real);
    r := MoveOn(u, t, L, Do(Look((f - 1) as real, f as real, false)));
  }

  /** The second window trims the first down to its last two rows, and the view
      moves up with the trim. */
  lemma {:induction false} SecondPage(v: Screen, t: Tuning, L: seq<Row>) returns (r: Screen)
    requires Small(t, L) && Lean(v.x.s.tops, 3)
    requires Sits(v, L, Bare(Somes(L[..t.first]), 0, t.first + t.win).(needDown := true), Down(t.first),
                  (t.first - 1) as real, false)
    ensures var a, e := t.first - 2, DownRows(t.win, false, t.first - 2);
            && CanMove(v, t, L, Do(e)) && Fits(v.x, t, L, e) && r == MoveOn(v, t, L, Do(e))
            && Sits(r, L, Bare(Somes(L[a..t.first + t.win]), a, t.first + t.win), Idle, 1.0, true)
            && Lean(r.x.s.tops, 5)
  {
    hide Inv, DownPage, Somes, Core, Lean, Band;
    var f, a, end := t.first, t.first - 2, t.first + t.win;
    var e := DownRows(t.win, false, a);
    var rows := L[f..end];
    CoreFields(v.x.s);
    SomesFull(L[..f]);
    StepKeeps(v.x, t, L, e);
    var cells := Somes(L[..end]);
    AppendWhole(L, f, end);
    SecondCut(L, a, end);
    DownPageCore(v.x.s, t, rows, false, a, cells);
    CoreFields(Step(v.x, t, L, e).s);
    DownPageLean(v.x.s, t, rows, a, cells, 3);
    r := MoveOn(v, t, L, Do(e));
  }

  lemma {:induction false} AppendWhole(L: seq<Row>, f: nat, end: nat)
    requires f <= end <= |L|
    ensures AppendCells(Somes(L[..f]), L[f..end]) == Somes(L[..end])
  {
    hide Somes, Band;
    SomesFull(L[..f]);
    SomesCut(L[..end], f);
    assert L[..end][..f] == L[..f] && L[..end][f..] == L[f..end];
    assert Somes(L[..f])[..f] == Somes(L[..f]);
  }

  lemma {:induction false} SecondCut(L: seq<Row>, a: nat, end: nat)
    requires 0 < a <= end <= |L|
    ensures Somes(L[..end])[a..] == Somes(L[a..end]) && Somes(L[..end])[a - 1].Some?
  {
    hide Somes;
    SomesCut(L[..end], a);
    SomesFull(L[..end]);
    assert L[..end][a..] == L[a..end];
  }

  /** The view now stands above the window, which dials a climb from index 0. */
  lemma {:induction false} ClimbLook(v: Screen, t: Tuning, L: seq<Row>) returns (r: Screen)
    requires Small(t, L) && Lean(v.x.s.tops, 5)
    requires var a, end := t.first - 2, t.first + t.win; Sits(v, L, Bare(Somes(L[a..end]), a, end), Idle, 1.0, true)
    ensures var a, end := t.first - 2, t.first + t.win;
            var e := Look(1.0, 2.0, false);
            && CanMove(v, t, L, Do(e)) && Fits(v.x, t, L, e) && r == MoveOn(v, t, L, Do(e))
            && Sits(r, L, Bare(Somes(L[a..end]), a, end).(needUp := true), Up(0), 1.0, false)
            && Lean(r.x.s.tops, 5)
  {
    hide Inv, Somes;
    CoreFields(v.x.s);
    ZeroInRing(v.x, L);
    assert v.x.s.base == t.first - 2;
    assert Missing(v.x.s, t, 1.0, 2.0);
    LookClimbs(v.x, t, L, 1.0, 2.0, 0);
    r := MoveOn(v, t, L, Do(Look(1.0, 2.0, false)));
  }

  /** The slice the climb leaves: its own rows, the gap it did not bridge, and what
      the tail trim spares of the rest. */
  function Gapped(L: seq<Row>, w: nat, a: nat, end: nat): seq<Cell>
    requires w <= a <= end <= |L|
  {
    Somes(L[..w]) + Tombstones(a - w) + Somes(L[a..end])
  }

  lemma {:induction false} ClimbWalks(s: State, t: Tuning, L: seq<Row>)
    requires Small(t, L)
    requires var a, end := t.first - 2, t.first + t.win; Core(s) == Bare(Somes(L[a..end]), a, end).(needUp := true)
    ensures WalkPage(s, t, 0, t.win) == Walk(t.win, t.win, false, 0)
  {
    hide Somes;
    CoreFields(s);
    WalkOwed(s, t, 0, t.win, 0, t.win, 0);
  }

  lemma {:induction false} ClimbBuffers(s: State, t: Tuning, L: seq<Row>)
    requires Small(t, L)
    requires var a, end := t.first - 2, t.first + t.win; Core(s) == Bare(Somes(L[a..end]), a, end).(needUp := true)
    ensures var w, a, end := t.win, t.first - 2, t.first + t.win;
            && WalkPage(s, t, 0, w) == Walk(w, w, false, 0)
            && var b := AppendBackRows(s, t, L[0..w], false, 0);
               && Core(b) == Core(s).(upBuf := L[..w]) && BackfillDone(b, t)
               && Filled(b).all == Seat(Core(b)).all == Gapped(L, w, a, end)
               && Filled(b).base == Seat(Core(b)).base == 0
               && |Gapped(L, w, a, end)| == end
  {
    hide Seat, Gapped, AppendBackRows, Somes, WalkPage;
    var w := t.win;
    ClimbWalks(s, t, L);
    CoreFields(s);
    assert [] + L[0..w][0..w] == L[..w];
    BackPageCore(s, t, L[0..w], false, 0, Walk(w, w, false, 0));
    var b := AppendBackRows(s, t, L[0..w], false, 0);
    CoreFields(b);
    SeatGapped(b, L, w, t.first - 2, t.first + w);
    SeatCore(b);
  }

  lemma {:induction false} ClimbSettles(s: State, t: Tuning, L: seq<Row>)
    requires Small(t, L) && Lean(s.tops, 5)
    requires var a, end := t.first - 2, t.first + t.win; Core(s) == Bare(Somes(L[a..end]), a, end).(needUp := true)
    ensures var w, a, end := t.win, t.first - 2, t.first + t.win;
            var y := UpPage(s, t, L[0..w], false, 0, end - 3);
            && |Gapped(L, w, a, end)| == end
            && Core(y) == Bare(Gapped(L, w, a, end)[..w + 2], 0, end)
            && Lean(y.tops, 7) && HasIndex(y.tops, w)
  {
    hide Seat, Gapped, Somes, AppendBackRows, UpPage, Lean, HasIndex, WalkPage;
    var w := t.win;
    ClimbBuffers(s, t, L);
    var b := AppendBackRows(s, t, L[0..w], false, 0);
    CoreFields(b);
    UpPageSettles(s, t, L[0..w], false, 0, t.first + w - 3, Walk(w, w, false, 0));
    UpPageLean(s, t, L[0..w], 0, t.first + w - 3, 5);
    BackPageCore(s, t, L[0..w], false, 0, Walk(w, w, false, 0));
  }

  lemma {:induction false} ClimbMoves(v: Screen, t: Tuning, L: seq<Row>)
    requires Small(t, L)
    requires var a, end := t.first - 2, t.first + t.win;
             Sits(v, L, Bare(Somes(L[a..end]), a, end).(needUp := true), Up(0), 1.0, false)
    ensures var e := UpRows(t.win, false, 0, t.first + t.win - 3);
            CanMove(v, t, L, Do(e)) && Fits(v.x, t, L, e)
  {
    hide Inv, Seat, Gapped, AppendBackRows, Somes, WalkPage, Filled;
    CoreFields(v.x.s);
    ClimbBuffers(v.x.s, t, L);
  }

  lemma {:induction false} ClimbPage(v: Screen, t: Tuning, L: seq<Row>) returns (r: Screen)
    requires Small(t, L) && Lean(v.x.s.tops, 5)
    requires var a, end := t.first - 2, t.first + t.win;
             Sits(v, L, Bare(Somes(L[a..end]), a, end).(needUp := true), Up(0), 1.0, false)
    ensures var w, a, end := t.win, t.first - 2, t.first + t.win;
            var e := UpRows(w, false, 0, end - 3);
            && CanMove(v, t, L, Do(e)) && Fits(v.x, t, L, e) && r == MoveOn(v, t, L, Do(e))
            && |Gapped(L, w, a, end)| == end
            && Sits(r, L, Bare(Gapped(L, w, a, end)[..w + 2], 0, end), Idle, 1.0, true)
            && Lean(r.x.s.tops, 7) && HasIndex(r.x.s.tops, w)
  {
    hide Inv, UpPage, Gapped, Lean, HasIndex, Somes, Fits, Scrolled;
    var w, end := t.win, t.first + t.win;
    var e := UpRows(w, false, 0, end - 3);
    ClimbMoves(v, t, L);
    ClimbSettles(v.x.s, t, L);
    StepKeeps(v.x, t, L, e);
    CoreFields(Step(v.x, t, L, e).s);
    r := MoveOn(v, t, L, Do(e));
  }

  lemma {:induction false} SeatAtHead(all: seq<Cell>, base: nat, buf: seq<Row>)
    requires |buf| <= base
    ensures SeatCells(all, base, buf, 0) == Somes(buf) + Tombstones(base - |buf|) + all
  {
    hide Somes, Tombstones;
    assert all[0..] == all;
  }

  lemma {:induction false} SeatGapped(b: State, L: seq<Row>, w: nat, a: nat, end: nat)
    requires 0 < w <= a <= end <= |L|
    requires b.all == Somes(L[a..end]) && b.base == a && b.upBuf == L[..w] && b.upStart == 0
    ensures Seat(b).all == Gapped(L, w, a, end) && Seat(b).base == 0 && |Seat(b).all| == end
  {
    hide Somes, Tombstones, SeatCells;
    SeatAtHead(b.all, a, L[..w]);
  }

  /** Two windows down, a screen at a time, and one climb back. */
  function Opening(f: nat, w: nat): seq<Move>
    requires f >= 2 && f + w >= 3
  {
    [] + [Do(DownRows(f, false, 0))] + [Do(Look(0.0, 1.0, false))]
    + [Scroll((f - 1) as real)] + [Do(Look((f - 1) as real, f as real, false))]
    + [Do(DownRows(w, false, f - 2))] + [Do(Look(1.0, 2.0, false))] + [Do(UpRows(w, false, 0, f + w - 3))]
  }

  lemma {:induction false} OpeningLeads(t: Tuning, L: seq<Row>) returns (v: Screen)
    requires Small(t, L)
    ensures var f, w, a, end := t.first, t.win, t.first - 2, t.first + t.win;
            && Leads(t, L, Opening(f, w), v)
            && |Gapped(L, w, a, end)| == end
            && Sits(v, L, Bare(Gapped(L, w, a, end)[..w + 2], 0, end), Idle, 1.0, true)
            && Lean(v.x.s.tops, 7) && HasIndex(v.x.s.tops, w)
  {
    hide Leads, Sits, CanMove, MoveOn, Fits, Gapped, Lean, HasIndex, Somes, Core;
    var f, w := t.first, t.win;
    NothingLeads(t, L);
    var u := Unscrolled(t, 1.0);
    v := FirstPage(t, L);
    var ms := [] + [Do(DownRows(f, false, 0))];
    Then(t, L, [], u, Do(DownRows(f, false, 0)));
    var v1 := FirstLook(v, t, L);
    Then(t, L, ms, v, Do(Look(0.0, 1.0, false)));
    SitsQuiet(v, v1, L, t);
    ms := ms + [Do(Look(0.0, 1.0, false))];
    var v2, v3 := ScrollDown(v1, t, L);
    Then(t, L, ms, v1, Scroll((f - 1) as real));
    ms := ms + [Scroll((f - 1) as real)];
    Then(t, L, ms, v2, Do(Look((f - 1) as real, f as real, false)));
    ms := ms + [Do(Look((f - 1) as real, f as real, false))];
    var v4 := SecondPage(v3, t, L);
    Then(t, L, ms, v3, Do(DownRows(w, false, f - 2)));
    ms := ms + [Do(DownRows(w, false, f - 2))];
    var v5 := ClimbLook(v4, t, L);
    Then(t, L, ms, v4, Do(Look(1.0, 2.0, false)));
    ms := ms + [Do(Look(1.0, 2.0, false))];
    v := ClimbPage(v5, t, L);
    Then(t, L, ms, v5, Do(UpRows(w, false, 0, f + w - 3)));
  }

  lemma {:induction false} SitsQuiet(v: Screen, r: Screen, L: seq<Row>, t: Tuning)
    requires Small(t, L) && Sits(v, L, Bare(Somes(L[..t.first]), 0, t.first), Idle, 0.0, true) && r == v.(due := false)
    ensures Sits(r, L, Bare(Somes(L[..t.first]), 0, t.first), Idle, 0.0, false)
  {
  }

  // ---------- a page shorter than the band it meets ----------

  function BandCells(L: seq<Row>): seq<Cell>
    requires |L| >= 3
  {
    [Some(L[0]), Some(L[1]), Some(L[2]), None, None]
  }

  lemma {:induction false} GappedAt(L: seq<Row>, w: nat, a: nat, end: nat, i: nat)
    requires w <= a <= end <= |L| && i < end
    ensures |Gapped(L, w, a, end)| == end
    ensures Gapped(L, w, a, end)[i] == if i < w || i >= a then Some(L[i]) else None
  {
    hide Somes, Tombstones;
    ConcatAt(Somes(L[..w]), Tombstones(a - w), Somes(L[a..end]), i);
    if i < w {
      SomesAt(L[..w], i);
    } else if i < a {
      TombstonesAt(a - w, i - w);
    } else {
      SomesAt(L[a..end], i - a);
    }
  }

  lemma {:induction false} BandIsGapped(L: seq<Row>)
    requires |L| >= 10
    ensures |Gapped(L, 3, 5, 10)| == 10 && Gapped(L, 3, 5, 10)[..5] == BandCells(L)
  {
    hide Gapped;
    GappedAt(L, 3, 5, 10, 0);
    GappedAt(L, 3, 5, 10, 1);
    GappedAt(L, 3, 5, 10, 2);
    GappedAt(L, 3, 5, 10, 3);
    GappedAt(L, 3, 5, 10, 4);
  }

  lemma {:induction false} BandLook(v: Screen, t: Tuning, L: seq<Row>) returns (r: Screen)
    requires Small(t, L) && t.first == 7 && t.win == 3 && t.prefetch == 3
    requires Sits(v, L, Bare(BandCells(L), 0, 10), Idle, 1.0, true)
    ensures var e := Look(1.0, 2.0, false);
            && CanMove(v, t, L, Do(e)) && Fits(v.x, t, L, e) && r == MoveOn(v, t, L, Do(e))
            && Sits(r, L, Bare(BandCells(L), 0, 8).(needDown := true), Down(3), 1.0, false)
  {
    hide Inv, Band;
    CoreFields(v.x.s);
    BandIs(BandCells(L), 2);
    assert !Missing(v.x.s, t, 1.0, 2.0);
    LookDives(v.x, t, L, 1.0, 2.0);
    r := MoveOn(v, t, L, Do(Look(1.0, 2.0, false)));
  }

  lemma {:induction false} ShortPage(v: Screen, t: Tuning, L: seq<Row>, e: Event)
    requires Small(t, L) && t.first == 7 && t.win == 3 && e == DownRows(1, false, 0)
    requires Sits(v, L, Bare(BandCells(L), 0, 8).(needDown := true), Down(3), 1.0, false)
    ensures CanMove(v, t, L, Do(e)) && !Fits(v.x, t, L, e) && Core(Step(v.x, t, L, e).s).At(4) == Some(L[3])
  {
    hide Inv, DownPage, AppendCells, Band;
    var c := BandCells(L);
    CoreFields(v.x.s);
    BandIs(c, 2);
    assert L[3..4] == [L[3]];
    AppendOne(c, L[3], 2);
    DownPageCore(v.x.s, t, [L[3]], false, 0, AppendCells(c, [L[3]]));
  }

  /** One row into a window whose last two slots are a band: it lands in the band's
      last slot, not in the first owed one. */
  lemma {:induction false} ShortPageMisplaces(t: Tuning, L: seq<Row>)
    requires Ascending(L) && t.first == 7 && t.win == 3 && t.max == 5 && t.prefetch == 3 && t.cap >= 10 && |L| >= 10
    ensures Misplaces(t, L, Opening(7, 3) + [Do(Look(1.0, 2.0, false))], DownRows(1, false, 0), 4, 3)
  {
    hide Leads, Sits, CanMove, MoveOn, Fits, Misplaces, Gapped, Step;
    var v := OpeningLeads(t, L);
    BandIsGapped(L);
    var r := BandLook(v, t, L);
    Then(t, L, Opening(7, 3), v, Do(Look(1.0, 2.0, false)));
    ShortPage(r, t, L, DownRows(1, false, 0));
    Misplaced(t, L, Opening(7, 3) + [Do(Look(1.0, 2.0, false))], r, DownRows(1, false, 0), 4, 3);
  }

  // ---------- climbs named at another index than their own ----------

  function HoleCells(L: seq<Row>): seq<Cell>
    requires |L| >= 4
  {
    [Some(L[0]), Some(L[1]), None, Some(L[3])]
  }

  ghost predicate Tiny(t: Tuning, L: seq<Row>) {
    Ascending(L) && t.first == 5 && t.win == 2 && t.max == 4 && t.prefetch == 1 && t.cap >= 7 && |L| >= 7
  }

  lemma {:induction false} HoleIsGapped(L: seq<Row>)
    requires |L| >= 7
    ensures |Gapped(L, 2, 3, 7)| == 7 && Gapped(L, 2, 3, 7)[..4] == HoleCells(L)
  {
    hide Gapped;
    GappedAt(L, 2, 3, 7, 0);
    GappedAt(L, 2, 3, 7, 1);
    GappedAt(L, 2, 3, 7, 2);
    GappedAt(L, 2, 3, 7, 3);
  }

  function Hole(L: seq<Row>): State
    requires |L| >= 4
  {
    Bare(HoleCells(L), 0, 7)
  }

  /** The view sees the hole and dials a climb from index 0. */
  lemma {:induction false} HoleLook(v: Screen, t: Tuning, L: seq<Row>) returns (r: Screen)
    requires Tiny(t, L) && Sits(v, L, Hole(L), Idle, 1.0, true) && Lean(v.x.s.tops, 7)
    ensures var e := Look(1.0, 2.0, false);
            && CanMove(v, t, L, Do(e)) && Fits(v.x, t, L, e) && r == MoveOn(v, t, L, Do(e))
            && Sits(r, L, Hole(L).(needUp := true), Up(0), 1.0, false) && r.x.s.tops == v.x.s.tops
  {
    hide Inv;
    CoreFields(v.x.s);
    ZeroInRing(v.x, L);
    assert v.x.s.all[2] == None;
    assert Missing(v.x.s, t, 1.0, 2.0);
    LookClimbs(v.x, t, L, 1.0, 2.0, 0);
    r := MoveOn(v, t, L, Do(Look(1.0, 2.0, false)));
  }

  lemma {:induction false} HoleOpening(t: Tuning, L: seq<Row>) returns (v: Screen)
    requires Tiny(t, L)
    ensures Leads(t, L, Opening(5, 2) + [Do(Look(1.0, 2.0, false))], v)
    ensures Sits(v, L, Hole(L).(needUp := true), Up(0), 1.0, false) && HasIndex(v.x.s.tops, 2)
  {
    hide Leads, Sits, CanMove, MoveOn, Fits, Gapped, Lean, HasIndex;
    var u := OpeningLeads(t, L);
    HoleIsGapped(L);
    v := HoleLook(u, t, L);
    Then(t, L, Opening(5, 2), u, Do(Look(1.0, 2.0, false)));
  }

  /** A climb's page of the two held rows: passed over. */
  lemma {:induction false} HeldPage(v: Screen, t: Tuning, L: seq<Row>) returns (r: Screen)
    requires Tiny(t, L) && Sits(v, L, Hole(L).(needUp := true), Up(0), 1.0, false)
    ensures var e := UpRows(2, false, 0, 1);
            && CanMove(v, t, L, Do(e)) && Fits(v.x, t, L, e) && r == MoveOn(v, t, L, Do(e))
            && Sits(r, L, Hole(L).(needUp := true, upScanned := 2), Up(2), 1.0, false)
  {
    hide Inv, UpPage, AppendBackRows;
    var s, e := v.x.s, UpRows(2, false, 0, 1);
    CoreFields(s);
    StepKeeps(v.x, t, L, e);
    var w := Walk(2, 0, false, 2);
    assert WalkBack(s, t, 0, 2, 1, 0, 1) == WalkBack(s, t, 0, 2, 2, 0, 2) == w;
    assert [] + L[0..2][2..2] == [];
    BackPageCore(s, t, L[0..2], false, 0, w);
    CoreFields(AppendBackRows(s, t, L[0..2], false, 0));
    UpPageGoesOn(s, t, L[0..2], 0, 1, w);
    CoreFields(Step(v.x, t, L, e).s);
    r := MoveOn(v, t, L, Do(e));
  }

  /** Four rows from index 2 on, named at index 0: the hole takes the third. */
  lemma {:induction false} HoleTakes(s: State, t: Tuning, L: seq<Row>, q: nat, safe: nat)
    requires Tiny(t, L) && q <= 2 && Core(s) == Hole(L).(needUp := true, upScanned := q)
    ensures var b := AppendBackRows(s, t, L[2..6], false, 0);
            Filled(b).base == 0 && |Filled(b).all| == 4
    ensures Core(UpPage(s, t, L[2..6], false, 0, safe)).At(2) == Some(L[4])
  {
    hide UpPage, AppendBackRows, SeatCells;
    CoreFields(s);
    var w := Walk(3, 1, true, q + 2);
    assert WalkBack(s, t, 0, 4, 3, 1, q + 2) == w;
    assert WalkBack(s, t, 0, 4, 2, 0, q + 2) == w;
    assert WalkBack(s, t, 0, 4, 1, 0, q + 1) == w;
    assert [] + L[2..6][2..3] == [L[4]];
    BackPageCore(s, t, L[2..6], false, 0, w);
    var b := AppendBackRows(s, t, L[2..6], false, 0);
    CoreFields(b);
    SplicedOne(HoleCells(L), L[4]);
    SeatCore(b);
    UpPageSettles(s, t, L[2..6], false, 0, safe, w);
  }

  lemma {:induction false} SplicedOne(c: seq<Cell>, row: Row)
    requires |c| == 4
    ensures SeatCells(c, 0, [row], 2) == [c[0], c[1], Some(row), c[3]]
  {
    SomesAre([row]);
  }

  lemma {:induction false} HoleMisplaces(v: Screen, t: Tuning, L: seq<Row>, q: nat, safe: nat)
    requires Tiny(t, L) && q <= 2 && v.x.wire == Up(2) && v.tall == 1.0 && !v.due
    requires safe == Max((1.0 - v.top + 1.0).Floor, 0)
    requires Core(v.x.s) == Hole(L).(needUp := true, upScanned := q)
    ensures var e := UpRows(4, false, 0, safe);
            CanMove(v, t, L, Do(e)) && !Fits(v.x, t, L, e) && Core(Step(v.x, t, L, e).s).At(2) == Some(L[4])
  {
    hide UpPage, AppendBackRows, Filled;
    HoleTakes(v.x.s, t, L, q, safe);
  }

  /** The main view's climb, both its pages named at the checkpoint's index 0: the
      first holds nothing owed, the second puts row 4 into slot 2. */
  lemma {:induction false} FixedCheckpointMisplaces(t: Tuning, L: seq<Row>)
    requires Tiny(t, L)
    ensures Misplaces(t, L, Opening(5, 2) + [Do(Look(1.0, 2.0, false))] + [Do(UpRows(2, false, 0, 1))],
                      UpRows(4, false, 0, 1), 2, 4)
  {
    hide Leads, CanMove, MoveOn, Fits, Misplaces, Step, Inv;
    var v := HoleOpening(t, L);
    var r := HeldPage(v, t, L);
    var ms := Opening(5, 2) + [Do(Look(1.0, 2.0, false))];
    Then(t, L, ms, v, Do(UpRows(2, false, 0, 1)));
    HoleMisplaces(r, t, L, 2, 1);
    Misplaced(t, L, ms + [Do(UpRows(2, false, 0, 1))], r, UpRows(4, false, 0, 1), 2, 4);
  }

  // ---------- a page that joins a buffer across held ground ----------

  /** A first page that fills the hole but not the buffer. */
  lemma {:induction false} SeamFirst(v: Screen, t: Tuning, L: seq<Row>) returns (r: Screen)
    requires Tiny(t, L) && Sits(v, L, Hole(L).(needUp := true), Up(0), 1.0, false)
    ensures var e := UpRows(3, false, 0, 1);
            && CanMove(v, t, L, Do(e)) && Fits(v.x, t, L, e) && r == MoveOn(v, t, L, Do(e))
            && Sits(r, L, Hole(L).(needUp := true, upScanned := 2, upBuf := [L[2]], upStart := 2), Up(3), 1.0, false)
  {
    hide Inv, UpPage, AppendBackRows, SeatCells;
    var s, e := v.x.s, UpRows(3, false, 0, 1);
    CoreFields(s);
    StepKeeps(v.x, t, L, e);
    var w := Walk(3, 1, false, 2);
    assert WalkBack(s, t, 0, 3, 2, 0, 2) == WalkBack(s, t, 0, 3, 3, 1, 2) == w;
    assert WalkBack(s, t, 0, 3, 1, 0, 1) == w;
    assert [] + L[0..3][2..3] == [L[2]];
    BackPageCore(s, t, L[0..3], false, 0, w);
    var b := AppendBackRows(s, t, L[0..3], false, 0);
    CoreFields(b);
    SplicedOne(HoleCells(L), L[2]);
    SeatCore(b);
    UpPageGoesOn(s, t, L[0..3], 0, 1, w);
    CoreFields(Step(v.x, t, L, e).s);
    r := MoveOn(v, t, L, Do(e));
  }

  lemma {:induction false} SeamSecond(s: State, t: Tuning, L: seq<Row>)
    requires Tiny(t, L)
    requires Core(s) == Hole(L).(needUp := true, upScanned := 2, upBuf := [L[2]], upStart := 2)
    ensures var b := AppendBackRows(s, t, L[3..7], false, 0);
            Filled(b).base == 0 && |Filled(b).all| == 4
    ensures Core(UpPage(s, t, L[3..7], false, 0, 1)).At(3) == Some(L[5])
  {
    hide UpPage, AppendBackRows, SeatCells;
    CoreFields(s);
    var w := Walk(3, 1, false, 4);
    assert WalkBack(s, t, 0, 4, 2, 0, 4) == WalkBack(s, t, 0, 4, 3, 1, 4) == w;
    assert WalkBack(s, t, 0, 4, 1, 0, 3) == w;
    assert [L[2]] + L[3..7][2..3] == [L[2], L[5]];
    BackPageCore(s, t, L[3..7], false, 0, w);
    var b := AppendBackRows(s, t, L[3..7], false, 0);
    CoreFields(b);
    SplicedTwo(HoleCells(L), L[2], L[5]);
    SeatCore(b);
    UpPageSettles(s, t, L[3..7], false, 0, 1, w);
  }

  lemma {:induction false} SplicedTwo(c: seq<Cell>, a: Row, b: Row)
    requires |c| == 4
    ensures SeatCells(c, 0, [a, b], 2) == [c[0], c[1], Some(a), Some(b)]
  {
    SomesAre([a, b]);
  }

  lemma {:induction false} SeamTakes(v: Screen, t: Tuning, L: seq<Row>, e: Event)
    requires Tiny(t, L) && e == UpRows(4, false, 0, 1)
    requires Sits(v, L, Hole(L).(needUp := true, upScanned := 2, upBuf := [L[2]], upStart := 2), Up(3), 1.0, false)
    ensures CanMove(v, t, L, Do(e)) && !Fits(v.x, t, L, e) && Core(Step(v.x, t, L, e).s).At(3) == Some(L[5])
  {
    hide UpPage, AppendBackRows, Filled, Inv;
    SeamSecond(v.x.s, t, L);
  }

  /** The same climb, its first page filling the hole: the second, walked at the
      checkpoint's index again, opens on held ground, and the row it takes joins
      the buffer as if it followed. */
  lemma {:induction false} SeamMisplaces(t: Tuning, L: seq<Row>)
    requires Tiny(t, L)
    ensures Misplaces(t, L, Opening(5, 2) + [Do(Look(1.0, 2.0, false))] + [Do(UpRows(3, false, 0, 1))],
                      UpRows(4, false, 0, 1), 3, 5)
  {
    hide Leads, Sits, CanMove, MoveOn, Fits, Misplaces, Step;
    var v := HoleOpening(t, L);
    var r := SeamFirst(v, t, L);
    var ms := Opening(5, 2) + [Do(Look(1.0, 2.0, false))];
    Then(t, L, ms, v, Do(UpRows(3, false, 0, 1)));
    SeamTakes(r, t, L, UpRows(4, false, 0, 1));
    Misplaced(t, L, ms + [Do(UpRows(3, false, 0, 1))], r, UpRows(4, false, 0, 1), 3, 5);
  }

  // ---------- a climb named at no index ----------

  /** The view moves on while the climb's wire is open, and the wire fails. */
  lemma {:induction false} ScrollAndFail(v: Screen, t: Tuning, L: seq<Row>) returns (u: Screen, w: Screen, r: Screen)
    requires Tiny(t, L) && Sits(v, L, Hole(L).(needUp := true), Up(0), 1.0, false)
    ensures var look, fail := Look(2.0, 3.0, false), UpFails(0);
            && CanMove(v, t, L, Scroll(2.0)) && u == MoveOn(v, t, L, Scroll(2.0))
            && CanMove(u, t, L, Do(look)) && Fits(u.x, t, L, look) && w == MoveOn(u, t, L, Do(look))
            && CanMove(w, t, L, Do(fail)) && Fits(w.x, t, L, fail) && r == MoveOn(w, t, L, Do(fail))
            && Sits(r, L, Hole(L), Idle, 2.0, true) && r.x.s.tops == v.x.s.tops
  {
    hide Inv, Missing;
    CoreFields(v.x.s);
    u := MoveOn(v, t, L, Scroll(2.0));
    LookRests(u.x, t, L, 2.0, 3.0);
    w := MoveOn(u, t, L, Do(Look(2.0, 3.0, false)));
    StepKeeps(w.x, t, L, UpFails(0));
    r := MoveOn(w, t, L, Do(UpFails(0)));
  }

  /** Further down, the tightest checkpoint is the first climb's own, at index 2. */
  lemma {:induction false} SecondLook(v: Screen, t: Tuning, L: seq<Row>) returns (r: Screen)
    requires Tiny(t, L) && Sits(v, L, Hole(L), Idle, 2.0, true) && HasIndex(v.x.s.tops, 2)
    ensures var e := Look(2.0, 3.0, false);
            && CanMove(v, t, L, Do(e)) && Fits(v.x, t, L, e) && r == MoveOn(v, t, L, Do(e))
            && Sits(r, L, Hole(L).(needUp := true), Up(2), 2.0, false)
  {
    hide Inv;
    CoreFields(v.x.s);
    assert v.x.s.all[2] == None;
    assert Missing(v.x.s, t, 2.0, 3.0);
    LookClimbs(v.x, t, L, 2.0, 3.0, 2);
    r := MoveOn(v, t, L, Do(Look(2.0, 3.0, false)));
  }

  /** The side pane names no index, which reads as 0: a climb's very first page, from
      a checkpoint at index 2, puts row 4 into slot 2. */
  lemma {:induction false} NoIndexMisplaces(t: Tuning, L: seq<Row>)
    requires Tiny(t, L)
    ensures Misplaces(t, L, Opening(5, 2) + [Do(Look(1.0, 2.0, false))] + [Scroll(2.0)] + [Do(Look(2.0, 3.0, false))]
                            + [Do(UpFails(0))] + [Do(Look(2.0, 3.0, false))],
                      UpRows(4, false, 0, 0), 2, 4)
  {
    hide Leads, CanMove, MoveOn, Fits, Misplaces, Step, Inv, HasIndex;
    var v := HoleOpening(t, L);
    var look := Do(Look(2.0, 3.0, false));
    var u, w, r := ScrollAndFail(v, t, L);
    var ms := Opening(5, 2) + [Do(Look(1.0, 2.0, false))];
    Then(t, L, ms, v, Scroll(2.0));
    Then(t, L, ms + [Scroll(2.0)], u, look);
    Then(t, L, ms + [Scroll(2.0)] + [look], w, Do(UpFails(0)));
    var z := SecondLook(r, t, L);
    Then(t, L, ms + [Scroll(2.0)] + [look] + [Do(UpFails(0))], r, look);
    HoleMisplaces(z, t, L, 0, 0);
    Misplaced(t, L, ms + [Scroll(2.0)] + [look] + [Do(UpFails(0))] + [look], z, UpRows(4, false, 0, 0), 2, 4);
  }
}
