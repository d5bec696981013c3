/** Silent refreshes beside the window's own fetches: both share the view's one
    stream slot, and opening it for a refresh cuts whatever was open. */
module WindowRefresh {
  import opened Basics
  import opened Listing
  import opened WindowSpec
  import opened WindowSlices
  import opened WindowLaws
  import opened WindowRuns

  /** How a silent walk can end: an error, a folder that outgrew one first window,
      or the whole listing, swapped in at once. */
  datatype Outcome = Fails | Outgrows | Swaps(rows: seq<Row>)

  /** `silent` says a silent walk holds the slot. */
  datatype Desk = Desk(x: Session, silent: bool)

  datatype DeskEvent = Fetch(e: Event) | Tick | Ends(out: Outcome)

  /** The models a silent refresh leaves alone. */
  predicate Deep(s: State, t: Tuning) {
    if s.streaming then !s.streamDone else |s.all| > t.first
  }

  /** setRows with the refreshed rows: the session is folded. */
  function Swapped(s: State, rows: seq<Row>): State {
    State(Somes(rows), 0, rows, [], 0, false, true, Some(|rows|), false, false, s.upHit, false, [], 0, 0)
  }

  predicate CanHappen(d: Desk, L: seq<Row>, e: DeskEvent) {
    match e
    case Fetch(f) => Possible(d.x, L, f)
    case Tick => true
    case Ends(_) => d.silent
  }

  /** A tick empties the slot before it looks at the model; a fetch dialled
      during a silent walk takes the slot from it. */
  function DeskStep(d: Desk, t: Tuning, L: seq<Row>, e: DeskEvent): Desk
    requires CanHappen(d, L, e)
  {
    match e
    case Fetch(f) =>
      var x := Step(d.x, t, L, f);
      Desk(x, d.silent && x.wire == Idle)
    case Tick => Desk(Session(d.x.s, Idle), !Deep(d.x.s, t))
    case Ends(out) => Desk(if out.Swaps? then Session(Swapped(d.x.s, out.rows), Idle) else d.x, false)
  }

  predicate CanRun(d: Desk, t: Tuning, L: seq<Row>, es: seq<DeskEvent>)
    decreases |es|
  {
    es != [] ==> CanHappen(d, L, es[0]) && CanRun(DeskStep(d, t, L, es[0]), t, L, es[1..])
  }

  function DeskRun(d: Desk, t: Tuning, L: seq<Row>, es: seq<DeskEvent>): Desk
    requires CanRun(d, t, L, es)
    decreases |es|
  {
    if es == [] then d else DeskRun(DeskStep(d, t, L, es[0]), t, L, es[1..])
  }

  // ---------- every armed fetch has a live wire ----------

  predicate Live(x: Session) {
    (x.s.needDown <==> x.wire.Down?) && (x.s.needUp <==> x.wire.Up?)
  }

  lemma {:induction false} DownPageArms(s: State, t: Tuning, rows: seq<Row>, done: bool, safe: nat)
    ensures var r := DownPage(s, t, rows, done, safe); r.needUp == s.needUp && (r.needDown ==> s.needDown)
  {
    hide AppendCells, PushTop, LastKey, CutTops, Without, Held;
  }

  lemma {:induction false} UpPageArms(s: State, t: Tuning, rows: seq<Row>, done: bool, at: nat, safe: nat)
    ensures var r := UpPage(s, t, rows, done, at, safe); r.needDown == s.needDown && (r.needUp ==> s.needUp)
  {
    hide PushTop, SeatCells, Without, Held, WalkPage;
  }

  /** Whatever the window's own events feed it, fetch flags and wire stay in step. */
  lemma {:induction false} FetchKeepsLive(x: Session, t: Tuning, L: seq<Row>, f: Event)
    requires Live(x) && Possible(x, L, f)
    ensures Live(Step(x, t, L, f))
  {
    hide DownPage, UpPage, Missing, TopBelow, ListAfter, LastKey, Held, Landed, TrimBottom;
    match f
    case DownRows(_, done, safe) => DownPageArms(x.s, t, PageRows(x, L, f), done, safe);
    case UpRows(_, done, at, safe) => UpPageArms(x.s, t, PageRows(x, L, f), done, at, safe);
    case UpFails(safe) => SettleUpArms(x.s, t, safe);
    case _ =>
  }

  lemma {:induction false} SettleUpArms(s: State, t: Tuning, safe: nat)
    ensures var r := SettleUp(s, t, safe); !r.needUp && r.needDown == s.needDown
  {
    hide PushTop, SeatCells, Without, Held;
  }

  /** One step keeps every armed fetch its wire exactly when it is not a refresh
      tick over an open fetch. */
  lemma {:induction false} StepLiveExact(d: Desk, t: Tuning, L: seq<Row>, e: DeskEvent)
    requires Live(d.x) && CanHappen(d, L, e)
    ensures Live(DeskStep(d, t, L, e).x) <==> (e == Tick ==> d.x.wire == Idle)
  {
    hide Step;
    if e.Fetch? {
      FetchKeepsLive(d.x, t, L, e.e);
    }
  }

  /** The desk's sessions are live after each event. */
  predicate LiveThroughout(d: Desk, t: Tuning, L: seq<Row>, es: seq<DeskEvent>)
    requires CanRun(d, t, L, es)
    decreases |es|
  {
    es != [] ==> var d1 := DeskStep(d, t, L, es[0]); Live(d1.x) && LiveThroughout(d1, t, L, es[1..])
  }

  /** Every tick finds the slot idle. */
  predicate TicksIdle(d: Desk, t: Tuning, L: seq<Row>, es: seq<DeskEvent>)
    requires CanRun(d, t, L, es)
    decreases |es|
  {
    es != [] ==> (es[0] == Tick ==> d.x.wire == Idle) && TicksIdle(DeskStep(d, t, L, es[0]), t, L, es[1..])
  }

  /** Over any run, every armed fetch has a live wire at every moment exactly when
      every refresh tick found the slot idle. */
  lemma {:induction false} RunLiveExact(d: Desk, t: Tuning, L: seq<Row>, es: seq<DeskEvent>)
    requires Live(d.x) && CanRun(d, t, L, es)
    ensures LiveThroughout(d, t, L, es) <==> TicksIdle(d, t, L, es)
    decreases |es|
  {
    hide DeskStep, CanHappen, Live;
    if es != [] {
      StepLiveExact(d, t, L, es[0]);
      if Live(DeskStep(d, t, L, es[0]).x) {
        RunLiveExact(DeskStep(d, t, L, es[0]), t, L, es[1..]);
      }
    }
  }

  // ---------- what a refresh brings ----------

  /** A settled walk, or a folded listing within one first window, is walked again
      silently; a swap then shows exactly the rows it brought, all of the listing
      known. Every other model refuses: no silent walk starts, and so no swap. */
  lemma {:induction false} SwapExact(d: Desk, t: Tuning, L: seq<Row>, rows: seq<Row>, i: nat)
    ensures var d1 := DeskStep(d, t, L, Tick);
            && d1.x.s == d.x.s
            && (CanHappen(d1, L, Ends(Swaps(rows))) <==>
                if d.x.s.streaming then d.x.s.streamDone else |d.x.s.all| <= t.first)
            && (d1.silent ==>
                  var r := DeskStep(d1, t, L, Ends(Swaps(rows))).x.s;
                  && r.Edge() == |rows| && r.universe == Some(|rows|) && !r.streaming
                  && r.At(i) == if i < |rows| then Some(rows[i]) else None)
  {
    if i < |rows| {
      SomesAt(rows, i);
    }
  }

  // ---------- what a cut fetch leaves ----------

  /** Armed without a wire: no page can come and no demand can fire. */
  predicate Starved(x: Session) {
    x.wire == Idle && (x.s.needDown || x.s.needUp)
  }

  /** A tick leaves an armed fetch without its wire exactly when it cut one. */
  lemma {:induction false} TickStarvesExact(d: Desk, t: Tuning, L: seq<Row>)
    requires Live(d.x)
    ensures Starved(DeskStep(d, t, L, Tick).x) <==> d.x.wire != Idle
  {
  }

  /** A starved session stands still under every event but a silent swap. */
  lemma {:induction false} StarvedStands(d: Desk, t: Tuning, L: seq<Row>, e: DeskEvent)
    requires Starved(d.x) && CanHappen(d, L, e)
    ensures var d1 := DeskStep(d, t, L, e);
            if e.Ends? && e.out.Swaps? then Live(d1.x) && !Starved(d1.x) else d1.x == d.x
  {
    hide Missing, TopBelow, ListAfter, LastKey;
  }

  /** A fetch cut in an open walk stays cut: such a model refuses every silent swap,
      so after any run at all the session stands where the tick left it. */
  lemma {:induction false} OpenWalkStarves(d: Desk, t: Tuning, L: seq<Row>, es: seq<DeskEvent>)
    requires Starved(d.x) && d.x.s.streaming && !d.x.s.streamDone && !d.silent && CanRun(d, t, L, es)
    ensures DeskRun(d, t, L, es) == d
    decreases |es|
  {
    hide Step;
    if es != [] {
      StarvedStands(d, t, L, es[0]);
      OpenWalkStarves(DeskStep(d, t, L, es[0]), t, L, es[1..]);
    }
  }

  /** So a refresh tick during the very first walk leaves the view empty for good,
      whatever is looked at and however often it is refreshed silently. */
  lemma {:induction false} FirstWalkStarves(t: Tuning, L: seq<Row>, es: seq<DeskEvent>)
    requires CanRun(Desk(Start(t), false), t, L, [Tick] + es)
    ensures DeskRun(Desk(Start(t), false), t, L, [Tick] + es) == Desk(Session(Opened(t), Idle), false)
  {
    var d := Desk(Start(t), false);
    assert ([Tick] + es)[1..] == es;
    TickStarvesExact(d, t, L);
    OpenWalkStarves(DeskStep(d, t, L, Tick), t, L, es);
  }
}
