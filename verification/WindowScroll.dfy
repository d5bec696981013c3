/** The scroller around the window, its extent within the cap (stride 1): where the view stands, what a trim
    may therefore drop, and the look that every render takes. A session whose scroll
    positions come from here is a run of the session whose positions are free. */
module WindowScroll {
  import opened Basics
  import opened Listing
  import opened WindowSpec
  import opened WindowSlices
  import opened WindowLaws
  import opened WindowRuns

  /** The view's top row and height in rows; `due` says a render is under way,
      which ends in a look. */
  datatype Screen = Screen(x: Session, top: real, tall: real, due: bool)

  datatype Move = Scroll(top: real) | Do(e: Event)

  /** The canvas is as tall as the extent, and the scroll is clamped to it. */
  predicate OnCanvas(s: State, top: real, tall: real) {
    top == 0.0 || (0.0 <= top && top + tall <= s.Edge() as real)
  }

  /** How many head slots stand more than a screen above the view. */
  function TopSafe(s: State, top: real, tall: real): nat {
    Max((top - tall).Floor - s.base, 0)
  }

  /** How many tail slots stand more than a screen below it. */
  function TailSafe(s: State, top: real, tall: real): nat {
    Max((|s.all| as real - (top + tall - s.base as real) - tall).Floor, 0)
  }

  predicate CanMove(v: Screen, t: Tuning, L: seq<Row>, m: Move) {
    v.x.s.Edge() <= t.cap &&
    match m
    case Scroll(top) => !v.due && OnCanvas(v.x.s, top, v.tall)
    case Do(e) => Possible(v.x, L, e) && (v.due ==> e.Look?) && Scrolled(v, t, L, e)
  }

  /** The event's scroll positions are the view's. */
  predicate Scrolled(v: Screen, t: Tuning, L: seq<Row>, e: Event)
    requires Possible(v.x, L, e)
  {
    match e
    case Look(top, bot, _) => top == v.top && bot == v.top + v.tall && OnCanvas(v.x.s, v.top, v.tall)
    case DownRows(_, _, safe) => safe == TopSafe(v.x.s, v.top, v.tall)
    case UpRows(_, done, at, safe) =>
      safe == TailSafe(Filled(AppendBackRows(v.x.s, t, PageRows(v.x, L, e), done, at)), v.top, v.tall)
    case UpFails(safe) => safe == TailSafe(Filled(v.x.s), v.top, v.tall)
    case DownFails => true
  }

  /** The window as a settle would fill it. */
  function Filled(s: State): State {
    if s.upBuf == [] then s else Seat(s)
  }

  /** A head trim takes its rows' height off the scroll; a scroll renders, and so
      does the settle of a fetch. */
  function MoveOn(v: Screen, t: Tuning, L: seq<Row>, m: Move): Screen
    requires CanMove(v, t, L, m)
  {
    match m
    case Scroll(top) => v.(top := top, due := true)
    case Do(e) =>
      var y := Step(v.x, t, L, e);
      Screen(y, if e.DownRows? then Compensated(v.top, y.s.base - v.x.s.base) else v.top, v.tall,
             !e.Look? && y.wire == Idle)
  }

  function Compensated(top: real, cut: int): real {
    if top - cut as real > 0.0 then top - cut as real else 0.0
  }

  function Unscrolled(t: Tuning, tall: real): Screen {
    Screen(Start(t), 0.0, tall, false)
  }

  /** Where a fresh view's moves lead, if each is possible where it happens. */
  function After(t: Tuning, L: seq<Row>, tall: real, ms: seq<Move>): Option<Screen>
    decreases |ms|
  {
    if ms == [] then Some(Unscrolled(t, tall))
    else
      var last := |ms| - 1;
      match After(t, L, tall, ms[..last])
      case None => None
      case Some(v) => if CanMove(v, t, L, ms[last]) then Some(MoveOn(v, t, L, ms[last])) else None
  }

  function Events(ms: seq<Move>): seq<Event> {
    if ms == [] then []
    else
      var last := |ms| - 1;
      Events(ms[..last]) + if ms[last].Do? then [ms[last].e] else []
  }

  lemma {:induction false} AfterThen(t: Tuning, L: seq<Row>, tall: real, ms: seq<Move>, m: Move)
    ensures Events(ms + [m]) == Events(ms) + if m.Do? then [m.e] else []
    ensures After(t, L, tall, ms + [m]) ==
            match After(t, L, tall, ms)
            case None => None
            case Some(v) => if CanMove(v, t, L, m) then Some(MoveOn(v, t, L, m)) else None
  {
    hide CanMove, MoveOn;
    assert (ms + [m])[..|ms|] == ms;
  }

  // ---------- what a trim does to the view ----------

  /** The canvas spans the listing from its first row on, so a head trim moves no row
      of it; taking the trimmed height off the scroll moves the view up by exactly
      the rows cut. The view keeps its place exactly when none is. */
  lemma {:induction false} TrimMovesView(v: Screen, t: Tuning, L: seq<Row>, e: Event)
    requires e.DownRows? && CanMove(v, t, L, Do(e)) && v.tall >= 0.0
    ensures var r := MoveOn(v, t, L, Do(e));
            && (v.top >= 0.0 ==> r.top == v.top - (r.x.s.base - v.x.s.base) as real)
            && r.x.s.base >= v.x.s.base
            && (v.top >= 0.0 ==> (r.top == v.top <==> r.x.s.base == v.x.s.base))
  {
    hide DownPage;
    DownPageReach(v.x.s, t, PageRows(v.x, L, e), e.done, e.safe);
  }

  // ---------- scrolled sessions are sessions ----------

  lemma {:induction false} RunThen(x: Session, t: Tuning, L: seq<Row>, es: seq<Event>, e: Event)
    requires Possibles(x, t, L, es) && Possible(Run(x, t, L, es), L, e)
    ensures Possibles(x, t, L, es + [e]) && Run(x, t, L, es + [e]) == Step(Run(x, t, L, es), t, L, e)
    ensures Fed(x, t, L, es) && Fits(Run(x, t, L, es), t, L, e) ==> Fed(x, t, L, es + [e])
    decreases |es|
  {
    hide Step, Fits, Possible;
    if es == [] {
      assert [] + [e] == [e];
      assert [e][1..] == [];
    } else {
      assert (es + [e])[1..] == es[1..] + [e];
      RunThen(Step(x, t, L, es[0]), t, L, es[1..], e);
    }
  }

  lemma {:induction false} TrimTopReach(s: State, t: Tuning, safe: nat)
    ensures var r := TrimTop(s, t, safe); r.Edge() == s.Edge() && s.base <= r.base <= s.base + safe
  {
    hide CutTops, Without;
  }

  lemma {:induction false} LandReach(s: State, t: Tuning, acc: seq<Row>, safe: nat)
    ensures var r := Land(s, t, acc, safe); s.Edge() <= r.Edge() && s.base <= r.base <= s.base + safe
  {
    hide PushTop, LastKey, TrimTop, Band;
    if acc != [] {
      TrimTopReach(PushEdge(AppendRows(s, acc)), t, safe);
    }
  }

  lemma {:induction false} DownPageReach(s: State, t: Tuning, rows: seq<Row>, done: bool, safe: nat)
    ensures var r := DownPage(s, t, rows, done, safe); s.Edge() <= r.Edge() && s.base <= r.base <= s.base + safe
  {
    hide Land, Band, Held;
    LandReach(s, t, rows[..AcceptCount(s, |rows|)], safe);
  }

  lemma {:induction false} FilledReach(s: State)
    ensures s.Edge() <= Filled(s).Edge()
  {
    hide Somes, Tombstones;
  }

  lemma {:induction false} SettleUpReach(s: State, t: Tuning, top: real, tall: real)
    requires OnCanvas(s, top, tall) && tall >= 0.0
    ensures OnCanvas(SettleUp(s, t, TailSafe(Filled(s), top, tall)), top, tall)
  {
    hide SeatCells, PushTop, Without, Held;
    FilledReach(s);
    if s.upBuf != [] {
      assert Filled(s).all == Landed(s).all && Filled(s).base == Landed(s).base;
      TailTrimReach(Landed(s), t, top, tall);
    }
  }

  lemma {:induction false} TailTrimReach(s: State, t: Tuning, top: real, tall: real)
    requires OnCanvas(s, top, tall) && tall >= 0.0
    ensures OnCanvas(TrimBottom(s, t, TailSafe(s, top, tall)), top, tall)
  {
    hide Without;
    var cut := CutOf(s, t, TailSafe(s, top, tall));
    if cut > 0 {
      assert cut as real <= |s.all| as real - (top + tall - s.base as real) - tall;
    }
  }

  lemma {:induction false} BackPageReach(s: State, t: Tuning, rows: seq<Row>, done: bool, at: nat)
    ensures AppendBackRows(s, t, rows, done, at).Edge() == s.Edge()
  {
    hide WalkPage, PushTop;
  }

  /** A view on the canvas stays on it, whatever trims shorten it. */
  lemma {:induction false} StaysOnCanvas(v: Screen, t: Tuning, L: seq<Row>, m: Move)
    requires v.tall >= 0.0 && OnCanvas(v.x.s, v.top, v.tall) && CanMove(v, t, L, m)
    ensures OnCanvas(MoveOn(v, t, L, m).x.s, MoveOn(v, t, L, m).top, v.tall)
  {
    hide DownPage, SettleUp, AppendBackRows, Need, TopBelow, ListAfter, LastKey, Held, Filled, TailSafe;
    if m.Do? {
      match m.e {
        case DownRows(_, done, safe) =>
          DownPageReach(v.x.s, t, PageRows(v.x, L, m.e), done, safe);
        case UpRows(_, done, at, _) =>
          BackPageReach(v.x.s, t, PageRows(v.x, L, m.e), done, at);
          SettleUpReach(AppendBackRows(v.x.s, t, PageRows(v.x, L, m.e), done, at), t, v.top, v.tall);
        case UpFails(_) =>
          SettleUpReach(v.x.s, t, v.top, v.tall);
        case _ =>
      }
    }
  }

  /** A scrolled session is a run of the free one, its view always on the canvas. */
  lemma {:induction false} ScreensRun(t: Tuning, L: seq<Row>, tall: real, ms: seq<Move>)
    requires tall >= 0.0 && After(t, L, tall, ms).Some?
    ensures var v := After(t, L, tall, ms).value;
            && Possibles(Start(t), t, L, Events(ms)) && Run(Start(t), t, L, Events(ms)) == v.x
            && v.tall == tall && OnCanvas(v.x.s, v.top, tall)
    decreases |ms|
  {
    hide Step, Possible, Scrolled;
    if ms != [] {
      var front, m := ms[..|ms| - 1], ms[|ms| - 1];
      ScreensRun(t, L, tall, front);
      var v := After(t, L, tall, front).value;
      StaysOnCanvas(v, t, L, m);
      if m.Do? {
        RunThen(Start(t), t, L, Events(front), m.e);
      } else {
        assert Events(front) + [] == Events(front);
      }
    }
  }
}
