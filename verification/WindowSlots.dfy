/** Sessions whose ring may lie: the slots alone, under any host. What a climb's
    checkpoint is worth no longer matters, only where its rows come from. */
module WindowSlots {
  import opened Basics
  import opened Listing
  import opened WindowSpec
  import opened WindowSlices
  import opened WindowSeat
  import opened WindowLaws
  import opened WindowRuns
  import opened WindowClimbs

  /** Sound without a word on the checkpoints. */
  ghost predicate SlotSound(s: State, L: seq<Row>) {
    && Slots(s.all, s.base, L)
    && s.rows == Held(s.all)
    && s.streaming
    && (s.all == [] ==> s.base == 0)
    && (s.streamDone ==> s.universe == Some(|L|))
  }

  ghost predicate SlotWired(x: Session, L: seq<Row>) {
    && (x.s.needDown <==> x.wire.Down?)
    && (x.s.needUp <==> x.wire.Up?)
    && !x.s.upHit
    && match x.wire
       case Idle => x.s.upBuf == []
       case Down(next) => x.s.upBuf == [] && x.s.Edge() < x.s.winTarget && next == x.s.Edge() - Band(x.s.all)
       case Up(next) => next <= |L| && TrueRun(x.s, L) && (x.s.upBuf != [] ==> x.s.upStart + |x.s.upBuf| <= next)
  }

  ghost predicate SlotInv(x: Session, L: seq<Row>) {
    SlotSound(x.s, L) && SlotWired(x, L)
  }

  /** The feeding rule for slots: as before downward; a back page may be named at any
      index, and be passed over, as long as rows it takes are taken in place. */
  predicate SlotFits(x: Session, t: Tuning, L: seq<Row>, e: Event)
    requires Possible(x, L, e)
  {
    match e
    case UpRows(n, _, at, _) => !Takes(x.s, t, at, n) || InPlace(x.s, x.wire.next, at)
    case _ => Fits(x, t, L, e)
  }

  lemma {:induction false} InvIsSlotInv(x: Session, L: seq<Row>)
    requires Inv(x, L)
    ensures SlotInv(x, L)
  {
    hide Held, Band, Ring;
  }

  /** The rule asks less than a host that names each page's own index must give. */
  lemma {:induction false} FitsIsSlotFits(x: Session, t: Tuning, L: seq<Row>, e: Event)
    requires Inv(x, L) && Possible(x, L, e) && Fits(x, t, L, e)
    ensures SlotFits(x, t, L, e)
  {
    hide Held, Band, Ring, Need, DownFits;
    if e.UpRows? && e.n == 0 {
      assert !Takes(x.s, t, e.at, 0);
    }
  }

  // ---------- downward: the ring set aside ----------

  function Topless(s: State): State {
    s.(tops := [])
  }

  lemma {:induction false} TrimTopless(a: State, b: State, t: Tuning, safe: nat)
    requires Topless(a) == Topless(b)
    ensures Topless(TrimTop(a, t, safe)) == Topless(TrimTop(b, t, safe))
  {
    hide CutTops, Without;
  }

  lemma {:induction false} LandTopless(a: State, b: State, t: Tuning, acc: seq<Row>, safe: nat)
    requires Topless(a) == Topless(b)
    ensures Topless(Land(a, t, acc, safe)) == Topless(Land(b, t, acc, safe))
  {
    hide AppendCells, PushTop, LastKey, TrimTop;
    if acc != [] {
      TrimTopless(PushEdge(AppendRows(a, acc)), PushEdge(AppendRows(b, acc)), t, safe);
    }
  }

  lemma {:induction false} AppendTopless(a: State, b: State, rows: seq<Row>)
    requires Topless(a) == Topless(b)
    ensures Topless(AppendRows(a, rows)) == Topless(AppendRows(b, rows))
  {
    hide AppendCells;
    assert b == a.(tops := b.tops);
  }

  lemma {:induction false} SettleTopless(a: State, b: State, done: bool)
    requires Topless(a) == Topless(b)
    ensures Topless(SettleDown(a, done)) == Topless(SettleDown(b, done))
  {
    hide Held;
    assert b == a.(tops := b.tops);
  }

  lemma {:induction false} FinishTopless(a: State, b: State, tail: seq<Row>, done: bool)
    requires Topless(a) == Topless(b)
    ensures Topless(FinishPage(a, tail, done)) == Topless(FinishPage(b, tail, done))
  {
    hide AppendRows, SettleDown;
    if done {
      AppendTopless(a, b, tail);
      SettleTopless(AppendRows(a, tail), AppendRows(b, tail), true);
    } else {
      SettleTopless(a, b, false);
    }
  }

  /** What a down page does to the window does not depend on the ring. */
  lemma {:induction false} DownPageTopless(a: State, b: State, t: Tuning, rows: seq<Row>, done: bool, safe: nat)
    requires Topless(a) == Topless(b)
    ensures Topless(DownPage(a, t, rows, done, safe)) == Topless(DownPage(b, t, rows, done, safe))
  {
    hide Land, FinishPage;
    var k := AcceptCount(a, |rows|);
    LandTopless(a, b, t, rows[..k], safe);
    FinishTopless(Land(a, t, rows[..k], safe), Land(b, t, rows[..k], safe), rows[k..], done);
  }

  /** The same session with the opening's ring. */
  function Fresh(x: Session): Session {
    Session(x.s.(tops := [Checkpoint("", 0)]), x.wire)
  }

  lemma {:induction false} FreshInv(x: Session, L: seq<Row>)
    requires Ascending(L) && SlotInv(x, L) && !x.wire.Up?
    ensures Inv(Fresh(x), L)
  {
    hide Held, Band, Ascending, ListAfter;
    KeyBeforeLists(L, 0);
  }

  lemma {:induction false} ToplessSlotInv(a: Session, b: Session, L: seq<Row>)
    requires SlotInv(a, L) && Topless(a.s) == Topless(b.s) && a.wire == b.wire
    ensures SlotInv(b, L)
  {
    hide Held, Band, Slots;
    assert b.s == a.s.(tops := b.s.tops);
  }

  lemma {:induction false} SlotDownKeeps(x: Session, t: Tuning, L: seq<Row>, e: Event)
    requires Ascending(L) && SlotInv(x, L) && e.DownRows? && Possible(x, L, e) && DownFits(x.s, e.n, e.done)
    ensures SlotInv(Step(x, t, L, e), L)
  {
    hide DownPage, Inv, SlotInv, Band;
    var y := Fresh(x);
    FreshInv(x, L);
    DownPageKeeps(y, t, L, e);
    InvIsSlotInv(Step(y, t, L, e), L);
    DownPageTopless(y.s, x.s, t, PageRows(x, L, e), e.done, e.safe);
    ToplessSlotInv(Step(y, t, L, e), Step(x, t, L, e), L);
  }

  /** What a down page does to slots and wire is exact on any ring: the slots stay
      true exactly when what is let in covers the band, and a wire left open goes
      on at the first owed row exactly when no row was cut off. */
  lemma {:induction false} SlotDownExact(x: Session, t: Tuning, L: seq<Row>, e: Event)
    requires Ascending(L) && SlotInv(x, L) && e.DownRows? && Possible(x, L, e)
    ensures var y := Step(x, t, L, e);
            var room := x.s.winTarget - x.s.Edge();
            var covers := e.n == 0 || Min(e.n, room) >= Band(x.s.all);
            && (Slots(y.s.all, y.s.base, L) <==> covers)
            && (covers && y.wire.Down? ==> (y.wire.next == y.s.Edge() - Band(y.s.all) <==> e.n == 0 || e.n <= room))
  {
    hide DownPage, Inv, Held, Band, Slots;
    var y := Fresh(x);
    FreshInv(x, L);
    DownSlotsExact(y, t, L, e);
    DownWireExact(y, t, L, e);
    DownPageTopless(y.s, x.s, t, PageRows(x, L, e), e.done, e.safe);
    SameSlots(Step(y, t, L, e).s, Step(x, t, L, e).s);
  }

  lemma {:induction false} SameSlots(a: State, b: State)
    requires Topless(a) == Topless(b)
    ensures a.all == b.all && a.base == b.base && a.needDown == b.needDown
  {
    assert Topless(a).all == a.all && Topless(b).all == b.all;
    assert Topless(a).base == a.base && Topless(b).base == b.base;
    assert Topless(a).needDown == a.needDown && Topless(b).needDown == b.needDown;
  }

  // ---------- demand ----------

  lemma {:induction false} SlotLookKeeps(x: Session, t: Tuning, L: seq<Row>, e: Event)
    requires Ascending(L) && SlotInv(x, L) && e.Look? && Possible(x, L, e)
    ensures SlotInv(Step(x, t, L, e), L)
  {
    hide Band, Held, Slots, Missing, LastKey, TopBelow;
    if Need(x.s, t, e.absTop, e.absBot, e.backoff) == WantDown {
      DialsAnchored(x.s, t, e.absTop, e.absBot, e.backoff);
      ResumeExact(x.s, L);
    }
  }

  /** Whatever the ring holds, a demand fires only while no fetch is open, and a down
      demand finds the window anchored. */
  lemma {:induction false} SlotDemand(x: Session, t: Tuning, L: seq<Row>, e: Event)
    requires SlotInv(x, L) && e.Look? && Possible(x, L, e)
    ensures var d := Need(x.s, t, e.absTop, e.absBot, e.backoff);
            (d != Nothing ==> x.wire == Idle) && (d == WantDown ==> Anchored(x.s))
  {
    hide Band, Held, Slots, Missing, TopBelow, Anchored;
    if Need(x.s, t, e.absTop, e.absBot, e.backoff) == WantDown {
      DialsAnchored(x.s, t, e.absTop, e.absBot, e.backoff);
    }
  }

  // ---------- upward ----------

  lemma {:induction false} SettledSound(s: State, t: Tuning, L: seq<Row>, safe: nat)
    requires Ascending(L) && SlotSound(s, L) && TrueRun(s, L) && s.needUp
    ensures var r := SettleUp(s, t, safe);
            SlotSound(r, L) && r.upBuf == [] && !r.upHit && !r.needUp && r.needDown == s.needDown
  {
    hide Seat, Held, PushTop, Without;
    if s.upBuf != [] {
      SeatEdge(s);
      SeatSlotsExact(s, L);
      CutTailKeeps(Seat(s), L, CutOf(Seat(s), t, safe));
    }
  }

  lemma {:induction false} SlotSettleKeeps(s: State, t: Tuning, L: seq<Row>, safe: nat)
    requires Ascending(L) && SlotSound(s, L) && TrueRun(s, L) && s.needUp && !s.needDown
    ensures SlotInv(Session(SettleUp(s, t, safe), Idle), L)
  {
    hide SlotSound, TrueRun, Landed, TrimBottom;
    SettledSound(s, t, L, safe);
  }

  /** A back page that leaves its climb open leaves the wire at or past its buffer. */
  lemma {:induction false} BackPageGoesOn(s: State, t: Tuning, rows: seq<Row>, done: bool, next: nat, at: nat)
    requires s.upBuf != [] ==> s.upStart + |s.upBuf| <= next
    requires !Takes(s, t, at, |rows|) || InPlace(s, next, at)
    ensures var r := AppendBackRows(s, t, rows, done, at);
            && (r.upBuf != [] ==> r.upStart + |r.upBuf| <= next + |rows|)
            && Topless(r) == Topless(s).(upDone := r.upDone, upHit := r.upHit, upScanned := r.upScanned,
                                         upStart := r.upStart, upBuf := r.upBuf)
  {
    hide PushTop, WalkPage, Takes;
    TakesExact(s, t, at, |rows|);
    var w := WalkPage(s, t, at, |rows|);
    assert |rows[w.stop - w.take..w.stop]| == w.take;
  }

  lemma {:induction false} SlotUpKeeps(x: Session, t: Tuning, L: seq<Row>, e: Event)
    requires Ascending(L) && SlotInv(x, L) && e.UpRows? && Possible(x, L, e) && SlotFits(x, t, L, e)
    ensures SlotInv(Step(x, t, L, e), L)
  {
    hide AppendBackRows, SettleUp, TrueRun, Takes, InPlace, Held, Slots, Band;
    var rows := PageRows(x, L, e);
    BackPageGoesOn(x.s, t, rows, e.done, x.wire.next, e.at);
    BackPageRunExact(x.s, t, L, x.wire.next, e.n, e.done, e.at);
    var r := AppendBackRows(x.s, t, rows, e.done, e.at);
    SlotSettleKeeps(r, t, L, e.safe);
  }

  // ---------- whole runs ----------

  /** Whatever the ring holds and whatever index the host names, a step that keeps
      the slots' feeding rule keeps the slots. */
  lemma {:induction false} SlotStepKeeps(x: Session, t: Tuning, L: seq<Row>, e: Event)
    requires Ascending(L) && SlotInv(x, L) && Possible(x, L, e) && SlotFits(x, t, L, e)
    ensures SlotInv(Step(x, t, L, e), L)
  {
    match e
    case Look(_, _, _) => SlotLookKeeps(x, t, L, e);
    case DownRows(_, _, _) => SlotDownKeeps(x, t, L, e);
    case DownFails => SlotDownFails(x, t, L, e);
    case UpRows(_, _, _, _) => SlotUpKeeps(x, t, L, e);
    case UpFails(safe) => SlotSettleKeeps(x.s, t, L, safe);
  }

  lemma {:induction false} SlotDownFails(x: Session, t: Tuning, L: seq<Row>, e: Event)
    requires SlotInv(x, L) && e.DownFails? && Possible(x, L, e)
    ensures SlotInv(Step(x, t, L, e), L)
  {
    hide Band, Held, Slots;
  }

  /** Each event keeps the slots' feeding rule where it happens. */
  predicate SlotFed(x: Session, t: Tuning, L: seq<Row>, es: seq<Event>)
    requires Possibles(x, t, L, es)
    decreases |es|
  {
    es != [] ==> SlotFits(x, t, L, es[0]) && SlotFed(Step(x, t, L, es[0]), t, L, es[1..])
  }

  lemma {:induction false} SlotRunKeeps(x: Session, t: Tuning, L: seq<Row>, es: seq<Event>)
    requires Ascending(L) && SlotInv(x, L) && Possibles(x, t, L, es) && SlotFed(x, t, L, es)
    ensures SlotInv(Run(x, t, L, es), L)
    decreases |es|
  {
    hide Step, SlotInv, SlotFits, Possible;
    if es != [] {
      SlotStepKeeps(x, t, L, es[0]);
      SlotRunKeeps(Step(x, t, L, es[0]), t, L, es[1..]);
    }
  }

  /** In every state any such session reaches each slot shows its own listing row or
      a blank, the display rows are the rows held, and the edge lies inside. */
  lemma {:induction false} SlotsSafe(t: Tuning, L: seq<Row>, es: seq<Event>, i: nat)
    requires Ascending(L) && Possibles(Start(t), t, L, es) && SlotFed(Start(t), t, L, es)
    ensures var s := Run(Start(t), t, L, es).s;
            && s.Edge() <= |L| && s.rows == Held(s.all)
            && (s.At(i) == None || (i < |L| && s.At(i) == Some(L[i])))
  {
    hide Step, SlotFits, Possible, Held;
    StartInv(t, L);
    InvIsSlotInv(Start(t), L);
    SlotRunKeeps(Start(t), t, L, es);
    var s := Run(Start(t), t, L, es).s;
    if s.base <= i < s.Edge() {
      assert SlotTrue(s.all, s.base, L, i - s.base);
    }
  }
}
