/** The session around the window: the wire that feeds it, the invariant every
    step keeps, and exactly when a step keeps it. */
module WindowLaws {
  import opened Basics
  import opened Listing
  import opened WindowSpec
  import opened WindowSlices
  import opened WindowSeat

  /** The one stream slot of the view: which fetch is open, and the listing
      index of the next row it will deliver. */
  datatype Wire = Idle | Down(next: nat) | Up(next: nat)

  datatype Session = Session(s: State, wire: Wire)

  datatype Event =
    | Look(absTop: real, absBot: real, backoff: bool)
    | DownRows(n: nat, done: bool, safe: nat)
    | DownFails
    | UpRows(n: nat, done: bool, at: nat, safe: nat)
    | UpFails(safe: nat)

  /** The back buffer is one contiguous run of owed rows. */
  ghost predicate Buffer(s: State, L: seq<Row>) {
    s.upBuf != [] ==>
      && s.upStart + |s.upBuf| <= s.Edge() <= |L|
      && s.upBuf == L[s.upStart..s.upStart + |s.upBuf|]
      && forall k | s.upStart <= k < s.upStart + |s.upBuf| :: s.At(k) == None
  }

  ghost predicate Sound(s: State, L: seq<Row>) {
    && Slots(s.all, s.base, L)
    && s.rows == Held(s.all)
    && Ring(s.tops, L)
    && s.streaming
    && (s.all == [] ==> s.base == 0)
    && (s.streamDone ==> s.universe == Some(|L|))
  }

  ghost predicate Wired(x: Session, L: seq<Row>) {
    && (x.s.needDown <==> x.wire.Down?)
    && (x.s.needUp <==> x.wire.Up?)
    && match x.wire
       case Idle => x.s.upBuf == [] && !x.s.upHit
       case Down(next) =>
         x.s.upBuf == [] && !x.s.upHit && x.s.Edge() < x.s.winTarget && next == x.s.Edge() - Band(x.s.all)
       case Up(next) =>
         next <= |L| && !x.s.upHit && Buffer(x.s, L) && (x.s.upBuf != [] ==> next == x.s.upStart + |x.s.upBuf|)
  }

  ghost predicate Inv(x: Session, L: seq<Row>) {
    Sound(x.s, L) && Wired(x, L)
  }

  // ---------- steps ----------

  /** What the wire and the viewport can do at all. The canvas ends with the extent,
      so no view starts past the edge (Drawing.ViewStartsInside). */
  predicate Possible(x: Session, L: seq<Row>, e: Event) {
    match e
    case Look(top, bot, _) => 0.0 <= top <= bot && top <= x.s.Edge() as real
    case DownRows(n, done, _) => x.wire.Down? && x.wire.next + n <= |L| && (done ==> x.wire.next + n == |L|)
    case DownFails => x.wire.Down?
    case UpRows(n, done, _, _) => x.wire.Up? && x.wire.next + n <= |L| && (done ==> x.wire.next + n == |L|)
    case UpFails(_) => x.wire.Up?
  }

  function PageRows(x: Session, L: seq<Row>, e: Event): seq<Row>
    requires (e.DownRows? || e.UpRows?) && Possible(x, L, e)
  {
    L[x.wire.next..x.wire.next + e.n]
  }

  /** The host opens the demanded fetch: a listing past lastKey, or past the
      checkpoint's key. */
  function Dial(x: Session, t: Tuning, L: seq<Row>, d: Demand): Session {
    match d
    case Nothing => x
    case WantDown => Session(FireDown(x.s, t), Down(|L| - |ListAfter(L, LastKey(x.s.all))|))
    case WantUp(cp) => Session(Raise(x.s, t, d), Up(|L| - |ListAfter(L, cp.after)|))
  }

  function Step(x: Session, t: Tuning, L: seq<Row>, e: Event): Session
    requires Possible(x, L, e)
  {
    match e
    case Look(top, bot, backoff) => Dial(x, t, L, Need(x.s, t, top, bot, backoff))
    case DownRows(n, done, safe) =>
      var s := DownPage(x.s, t, PageRows(x, L, e), done, safe);
      Session(s, if s.needDown then Down(x.wire.next + n) else Idle)
    case DownFails => Session(SettleDown(x.s, false), Idle)
    case UpRows(n, done, at, safe) =>
      var s := UpPage(x.s, t, PageRows(x, L, e), done, at, safe);
      Session(s, if s.needUp then Up(x.wire.next + n) else Idle)
    case UpFails(safe) => Session(SettleUp(x.s, t, safe), Idle)
  }

  /** A down page fits when, met by a trailing band, what is let in covers the
      band, and nothing of an unfinished page is left outside a window that the
      band kept from filling. */
  predicate DownFits(s: State, n: nat, done: bool) {
    var room := s.winTarget - s.Edge();
    n == 0 || (if n <= room || done then Min(n, room) >= Band(s.all) else Band(s.all) == 0)
  }

  /** An up page fits when its index is its own (cp.index advanced page by
      page) and a page behind buffered rows does not open on held ground. */
  predicate UpFits(x: Session, n: nat, at: nat)
    requires x.wire.Up?
  {
    n == 0 || (at == x.wire.next && (x.s.upBuf == [] || x.s.At(at) == None))
  }

  /** What the wire feeds must fit; a look always does. */
  predicate Fits(x: Session, t: Tuning, L: seq<Row>, e: Event)
    requires Possible(x, L, e)
  {
    match e
    case DownRows(n, done, _) => DownFits(x.s, n, done)
    case UpRows(n, _, at, _) => UpFits(x, n, at)
    case _ => true
  }

  // ---------- the downward side ----------

  lemma {:induction false} AppendAligned(s: State, L: seq<Row>, rows: seq<Row>)
    requires Sound(s, L)
    requires var next := s.Edge() - Band(s.all); next + |rows| <= |L| && rows == L[next..next + |rows|]
    requires rows == [] || |rows| >= Band(s.all)
    ensures Sound(AppendRows(s, rows), L)
    ensures rows != [] ==>
              AppendRows(s, rows).Edge() == s.Edge() - Band(s.all) + |rows| && Band(AppendRows(s, rows).all) == 0
    ensures rows == [] ==> AppendRows(s, rows) == s
  {
    AppendHeld(s.all, rows);
    if rows != [] { AppendClosesBand(s.all, rows); }
    if rows == [] {
      assert AppendCells(s.all, rows) == s.all;
      assert s.rows + rows == s.rows;
    } else {
      CellsAligned(s.all, s.base, L, rows);
    }
  }

  lemma {:induction false} CutTopsKeepsRing(tops: seq<Checkpoint>, all: seq<Cell>, base: nat, L: seq<Row>, cut: nat)
    requires Ascending(L) && Slots(all, base, L) && Ring(tops, L) && cut <= |all|
    ensures Ring(CutTops(tops, base, all[..cut]), L)
  {
    var lastReal := cut - Band(all[..cut]);
    if lastReal > 0 {
      CutBinds(all, base, L, cut);
      PushTopKeepsRing(tops, L, all[..cut][lastReal - 1].value.key, base + lastReal);
    }
  }

  lemma {:induction false} CutHeadKeeps(s: State, L: seq<Row>, cut: nat)
    requires Ascending(L) && Sound(s, L) && cut < |s.all|
    ensures Sound(CutHead(s, cut), L)
  {
    MirrorCut(s.all, s.base, L, cut);
    SlotsCut(s.all, s.base, L, cut);
    CutTopsKeepsRing(s.tops, s.all, s.base, L, cut);
  }

  /** Trimming bounds the slice: a trim the view allows brings it down to the
      ceiling, and no trim cuts deeper than the view or the ceiling lets it. */
  lemma {:induction false} TrimsBound(s: State, t: Tuning, safe: nat)
    ensures |TrimTop(s, t, safe).all| == |TrimBottom(s, t, safe).all| == Max(Min(|s.all|, t.max), |s.all| - safe)
    ensures safe >= |s.all| - t.max ==> |TrimTop(s, t, safe).all| <= t.max
  {
    hide CutTops, Without;
  }

  lemma {:induction false} BandOfSuffix(all: seq<Cell>, k: nat)
    requires k < |all| && Band(all) == 0
    ensures Band(all[k..]) == 0
  {
    assert all[k..][|all| - k - 1] == all[|all| - 1];
  }

  lemma {:induction false} TrimTopKeeps(s: State, t: Tuning, L: seq<Row>, safe: nat)
    requires Ascending(L) && Sound(s, L) && Band(s.all) == 0
    ensures Sound(TrimTop(s, t, safe), L) && SameDemand(s, TrimTop(s, t, safe))
    ensures TrimTop(s, t, safe).Edge() == s.Edge() && Band(TrimTop(s, t, safe).all) == 0
  {
    var cut := CutOf(s, t, safe);
    if cut > 0 {
      CutHeadKeeps(s, L, cut);
      BandOfSuffix(s.all, cut);
    }
  }

  /** After an append the checkpoint at the new edge binds lastKey. */
  lemma {:induction false} PushEdgeKeeps(s: State, L: seq<Row>)
    requires Ascending(L) && Sound(s, L) && Band(s.all) == 0 && s.all != []
    ensures Sound(PushEdge(s), L)
  {
    LastKeyIs(s.all, s.base, L);
    KeyBeforeLists(L, s.Edge());
    PushTopKeepsRing(s.tops, L, LastKey(s.all), s.Edge());
  }

  lemma {:induction false} Subslice(L: seq<Row>, at: nat, n: nat, a: nat, b: nat)
    requires at + n <= |L| && a <= b <= n
    ensures L[at..at + n][a..b] == L[at + a..at + b]
  {
    var page := L[at..at + n];
    assert |page[a..b]| == |L[at + a..at + b]|;
    forall i | 0 <= i < b - a
      ensures page[a..b][i] == L[at + a..at + b][i]
    {
      assert page[a..b][i] == page[a + i] == L[at + a + i];
    }
  }

  lemma {:induction false} JoinSlices(L: seq<Row>, a: nat, b: nat, c: nat)
    requires a <= b <= c <= |L|
    ensures L[a..b] + L[b..c] == L[a..c]
  {
  }

  lemma {:induction false} SplitPage(L: seq<Row>, next: nat, n: nat, k: nat)
    requires next + n <= |L| && k <= n
    ensures L[next..next + n][..k] == L[next..next + k]
    ensures L[next..next + n][k..] == L[next + k..next + n]
  {
  }

  lemma {:induction false} LandAligned(s: State, t: Tuning, L: seq<Row>, acc: seq<Row>, safe: nat)
    requires Ascending(L) && Sound(s, L) && acc != [] && |acc| >= Band(s.all)
    requires var next := s.Edge() - Band(s.all); next + |acc| <= |L| && acc == L[next..next + |acc|]
    ensures var r := Land(s, t, acc, safe);
            Sound(r, L) && SameDemand(s, r) && r.Edge() == s.Edge() - Band(s.all) + |acc| && Band(r.all) == 0
  {
    AppendAligned(s, L, acc);
    var s1 := AppendRows(s, acc);
    AppendClosesBand(s.all, acc);
    PushEdgeKeeps(s1, L);
    TrimTopKeeps(PushEdge(s1), t, L, safe);
  }

  lemma {:induction false} StreamAligned(s: State, t: Tuning, L: seq<Row>, n: nat, safe: nat)
    requires Ascending(L) && Sound(s, L) && s.Edge() < s.winTarget
    requires s.Edge() - Band(s.all) + n <= |L|
    requires n == 0 || AcceptCount(s, n) >= Band(s.all)
    ensures var next := s.Edge() - Band(s.all);
            var r := AppendStreamRows(s, t, L[next..next + n], safe);
            && Sound(r, L) && SameDemand(s, r)
            && (if n == 0 then r == s else r.Edge() == next + AcceptCount(s, n) && Band(r.all) == 0)
  {
    hide Band, Held, Land, Ring;
    var next := s.Edge() - Band(s.all);
    var k := AcceptCount(s, n);
    SplitPage(L, next, n, k);
    if n == 0 {
      LandNothing(s, t, L[next..next + k], safe);
    } else {
      LandAligned(s, t, L, L[next..next + k], safe);
    }
  }

  lemma {:induction false} LandNothing(s: State, t: Tuning, acc: seq<Row>, safe: nat)
    requires acc == []
    ensures Land(s, t, acc, safe) == s
  {
  }

  /** On a done page the rows the budget kept out are appended as well, which brings
      the edge to the listing's end. */
  lemma {:induction false} TailAligned(s: State, L: seq<Row>, k: nat, n: nat, next: nat)
    requires Sound(s, L) && next + n == |L| && k <= n
    requires if n == 0 then s.Edge() - Band(s.all) == next else s.Edge() == next + k && Band(s.all) == 0
    ensures var r := AppendRows(s, L[next..next + n][k..]);
            && Sound(r, L) && r.Edge() == |L|
            && SameDemand(s, r)
            && r.Edge() - Band(r.all) == |L|
  {
    SplitPage(L, next, n, k);
    AppendAligned(s, L, L[next + k..next + n]);
  }

  lemma {:induction false} SettleDownKeeps(s: State, L: seq<Row>, done: bool)
    requires Sound(s, L) && (done ==> s.Edge() == |L|)
    ensures Sound(SettleDown(s, done), L)
    ensures SettleDown(s, done) ==
            if done then s.(needDown := false, streamDone := true, universe := Some(s.Edge()))
            else s.(needDown := false)
  {
  }

  /** What a down page leaves: `end` is the listing index behind the last row
      taken, and the wire, if it stays open, goes on right there. */
  ghost predicate PageLeft(s: State, r: State, L: seq<Row>, end: nat, done: bool) {
    && Sound(r, L)
    && r.Edge() - Band(r.all) == end
    && r.winTarget == s.winTarget && r.needUp == s.needUp && r.upHit == s.upHit && r.upBuf == s.upBuf
    && (r.needDown <==> !done && r.Edge() < s.winTarget)
    && (done ==> r.streamDone && r.Edge() == |L|)
    && (!done ==> r.streamDone == s.streamDone)
  }

  lemma {:induction false} FinishPageKeeps(s: State, L: seq<Row>, k: nat, n: nat, next: nat, done: bool)
    requires Ascending(L) && Sound(s, L) && s.needDown && next + n <= |L| && (done ==> next + n == |L|) && k <= n
    requires if n == 0 then s.Edge() - Band(s.all) == next else s.Edge() == next + k && Band(s.all) == 0
    ensures PageLeft(s, FinishPage(s, L[next..next + n][k..], done), L, next + (if done then n else k), done)
  {
    if done {
      TailAligned(s, L, k, n, next);
      SettleDownKeeps(AppendRows(s, L[next..next + n][k..]), L, true);
    } else {
      SettleDownKeeps(s, L, false);
    }
  }

  lemma {:induction false} DownPageLeaves(s: State, t: Tuning, L: seq<Row>, n: nat, done: bool, safe: nat)
    requires Ascending(L) && Sound(s, L) && s.needDown && s.Edge() < s.winTarget
    requires var next := s.Edge() - Band(s.all); next + n <= |L| && (done ==> next + n == |L|)
    requires DownFits(s, n, done)
    ensures var next := s.Edge() - Band(s.all);
            PageLeft(s, DownPage(s, t, L[next..next + n], done, safe), L,
                     next + (if done then n else AcceptCount(s, n)), done)
  {
    hide AppendStreamRows, FinishPage, Band, Held, Slots, Ring;
    var next := s.Edge() - Band(s.all);
    var s1 := AppendStreamRows(s, t, L[next..next + n], safe);
    StreamAligned(s, t, L, n, safe);
    FinishPageKeeps(s1, L, AcceptCount(s, n), n, next, done);
  }

  lemma {:induction false} DownPageKeeps(x: Session, t: Tuning, L: seq<Row>, e: Event)
    requires Ascending(L) && Inv(x, L) && e.DownRows? && Possible(x, L, e) && DownFits(x.s, e.n, e.done)
    ensures Inv(Step(x, t, L, e), L)
  {
    hide DownPage, Band, Held, Slots, Ring;
    DownPageLeaves(x.s, t, L, e.n, e.done, e.safe);
  }

  lemma {:induction false} DownFailsKeeps(x: Session, t: Tuning, L: seq<Row>, e: Event)
    requires Inv(x, L) && e.DownFails? && Possible(x, L, e)
    ensures Inv(Step(x, t, L, e), L)
  {
    hide Band, Held, Slots, Ring;
    SettleDownKeeps(x.s, L, false);
  }

  // ---------- demand ----------

  /** The scan guards the dial: inside the canvas the slot under the view's reach is
      part of the window, so a scan that found no blank found a row held there. */
  lemma {:induction false} DialsAnchored(s: State, t: Tuning, absTop: real, absBot: real, backoff: bool)
    requires 0.0 <= absTop <= absBot && absTop <= s.Edge() as real && (s.all == [] ==> s.base == 0)
    requires Need(s, t, absTop, absBot, backoff) == WantDown
    ensures Anchored(s)
  {
    hide TopBelow, Band;
    var reach := absTop - t.prefetch as real;
    var relTop := Floor(if reach > 0.0 then reach else 0.0) - s.base;
    if s.all != [] {
      assert relTop < |s.all|;
      assert s.all[relTop].Some?;
      HeldSomewhere(s.all, relTop);
    }
  }

  lemma {:induction false} HeldSomewhere(all: seq<Cell>, k: nat)
    requires k < |all| && all[k].Some?
    ensures Band(all) < |all|
  {
    if Band(all) == |all| {
      BandAt(all, k);
    }
  }

  lemma {:induction false} LookKeeps(x: Session, t: Tuning, L: seq<Row>, e: Event)
    requires Ascending(L) && Inv(x, L) && e.Look? && Possible(x, L, e)
    ensures Inv(Step(x, t, L, e), L)
  {
    hide Band, Held, Slots, Ring, Missing, LastKey, TopBelow;
    match Need(x.s, t, e.absTop, e.absBot, e.backoff)
    case Nothing =>
    case WantDown =>
      DialsAnchored(x.s, t, e.absTop, e.absBot, e.backoff);
      ResumeExact(x.s, L);
    case WantUp(cp) => TopBelowTightest(x.s.tops, L, Floor(e.absTop));
  }

  // ---------- the upward side ----------

  /** A walk stops short of its page only on a full buffer, on held ground or at
      the window's edge. */
  lemma {:induction false} WalkGoesOn(s: State, t: Tuning, at: nat, n: nat, k: nat, take: nat, scanned: nat)
    requires take <= k <= n
    ensures var w := WalkBack(s, t, at, n, k, take, scanned);
            w.stop < n ==> |s.upBuf| + w.take >= t.win || s.At(at + w.stop).Some? || at + w.stop >= s.Edge()
    decreases n - k
  {
    if k < n && |s.upBuf| + take < t.win {
      if s.At(at + k).Some? {
        if take == 0 && scanned + 1 < t.first {
          WalkGoesOn(s, t, at, n, k + 1, 0, scanned + 1);
        }
      } else if at + k < s.Edge() {
        WalkGoesOn(s, t, at, n, k + 1, take + 1, scanned);
      }
    }
  }

  /** The walk takes one run of owed slots: everything it passed before was
      held, everything it took is owed and inside the window's span. */
  lemma {:induction false} WalkTakesOwed(s: State, t: Tuning, at: nat, n: nat, k: nat, take: nat, scanned: nat)
    requires take <= k <= n
    requires forall i | at + k - take <= i < at + k :: s.At(i) == None && i < s.Edge()
    requires forall i | at <= i < at + k - take :: s.At(i).Some?
    ensures var w := WalkBack(s, t, at, n, k, take, scanned);
            && (forall i | at + w.stop - w.take <= i < at + w.stop :: s.At(i) == None && i < s.Edge())
            && (forall i | at <= i < at + w.stop - w.take :: s.At(i).Some?)
            && (!w.hit && |s.upBuf| + w.take < t.win ==> w.stop == n)
    decreases n - k
  {
    if k < n && |s.upBuf| + take < t.win {
      if s.At(at + k).Some? {
        if take == 0 && scanned + 1 < t.first {
          WalkTakesOwed(s, t, at, n, k + 1, 0, scanned + 1);
          assert WalkBack(s, t, at, n, k, take, scanned) == WalkBack(s, t, at, n, k + 1, 0, scanned + 1);
        }
      } else if at + k < s.Edge() {
        WalkTakesOwed(s, t, at, n, k + 1, take + 1, scanned);
        assert WalkBack(s, t, at, n, k, take, scanned) == WalkBack(s, t, at, n, k + 1, take + 1, scanned);
      }
    }
  }

  /** A back page at its own index grows the buffer without a seam, provided it
      does not open on held ground behind buffered rows. */
  lemma {:induction false} AppendBackBuffer(s: State, t: Tuning, L: seq<Row>, n: nat, done: bool, at: nat)
    requires at + n <= |L| && s.Edge() <= |L| && Buffer(s, L)
    requires s.upBuf != [] ==> at == s.upStart + |s.upBuf| && (n == 0 || s.At(at) == None)
    ensures var r := AppendBackRows(s, t, L[at..at + n], done, at);
            && Buffer(r, L)
            && (r.upBuf != [] && !r.upHit && |r.upBuf| < t.win ==> at + n == r.upStart + |r.upBuf|)
  {
    hide PushTop;
    WalkTakesOwed(s, t, at, n, 0, 0, s.upScanned);
    var w := WalkPage(s, t, at, n);
    var r := AppendBackRows(s, t, L[at..at + n], done, at);
    Subslice(L, at, n, w.stop - w.take, w.stop);
    if w.take > 0 {
      assert s.At(at + w.stop - 1) == None;
    }
    if w.take > 0 && s.upBuf != [] {
      assert w.stop == w.take;
    }
    if s.upBuf != [] && w.take > 0 {
      JoinSlices(L, s.upStart, at, at + w.take);
    }
    forall k | r.upStart <= k < r.upStart + |r.upBuf|
      ensures r.At(k) == None
    {
      assert r.At(k) == s.At(k);
    }
  }

  lemma {:induction false} AppendBackSound(s: State, t: Tuning, L: seq<Row>, n: nat, done: bool, at: nat)
    requires Ascending(L) && Sound(s, L) && at + n <= |L|
    ensures var r := AppendBackRows(s, t, L[at..at + n], done, at);
            Sound(r, L) && r.needUp == s.needUp && r.needDown == s.needDown
  {
    hide Band, Held, Slots, PushTop, Ring, WalkPage;
    if n > 0 {
      KeyBeforeLists(L, at + n);
      PushTopKeepsRing(s.tops, L, L[at + n - 1].key, at + n);
    }
  }

  /** Seating a fill, slot by slot: the fill's slots show its rows, every other
      slot shows what it showed, and the bottom edge has not moved - whether the
      fill prepends, crosses the head or splices into the span. */
  lemma {:induction false} SeatAt(s: State, L: seq<Row>, i: nat)
    requires s.upBuf != [] && s.Edge() <= |L| && Buffer(s, L)
    ensures Seat(s).Edge() == s.Edge()
    ensures Seat(s).At(i) == if s.upStart <= i < s.upStart + |s.upBuf| then Some(L[i]) else s.At(i)
  {
    hide Seat;
    SeatEdge(s);
    SeatPlaces(s, i);
  }

  lemma {:induction false} CutTailKeeps(s: State, L: seq<Row>, cut: nat)
    requires Ascending(L) && Slots(s.all, s.base, L) && cut <= |s.all|
    ensures Slots(CutTail(s, cut).all, s.base, L)
  {
    SlotsCut(s.all, s.base, L, |s.all| - cut);
  }

  /** Trimming the tail keeps the slots, the display rows and the ring true. */
  lemma {:induction false} TrimBottomKeeps(s: State, t: Tuning, L: seq<Row>, safe: nat)
    requires Ascending(L) && Sound(s, L)
    ensures Sound(TrimBottom(s, t, safe), L) && SameDemand(s, TrimBottom(s, t, safe))
    ensures s.Edge() - safe <= TrimBottom(s, t, safe).Edge() <= s.Edge()
  {
    hide Ring;
    var cut := CutOf(s, t, safe);
    if cut > 0 {
      CutTailKeeps(s, L, cut);
      MirrorCut(s.all, s.base, L, |s.all| - cut);
    }
  }

  lemma {:induction false} SettleUpSound(s: State, t: Tuning, L: seq<Row>, safe: nat)
    requires Ascending(L) && Sound(s, L) && Buffer(s, L)
    ensures Sound(SettleUp(s, t, safe), L) && SettleUp(s, t, safe).needDown == s.needDown
  {
    hide Seat, Held, Ring, PushTop, Buffer, IsBinding;
    if s.upBuf != [] {
      BufferRun(s, L);
      SeatEdge(s);
      SeatSlotsExact(s, L);
      BufferBinds(s, L);
      var hi := s.upStart + |s.upBuf|;
      PushTopKeepsRing(s.tops, L, s.upBuf[|s.upBuf| - 1].key, hi);
      CutTailKeeps(Seat(s), L, CutOf(Seat(s), t, safe));
    }
  }

  lemma {:induction false} BufferRun(s: State, L: seq<Row>)
    requires s.upBuf != [] && s.Edge() <= |L| && Buffer(s, L)
    ensures s.upStart + |s.upBuf| <= s.Edge() && s.upBuf == L[s.upStart..s.upStart + |s.upBuf|]
  {
  }

  lemma {:induction false} BufferBinds(s: State, L: seq<Row>)
    requires Ascending(L) && s.upBuf != [] && s.Edge() <= |L| && Buffer(s, L)
    ensures IsBinding(L, Checkpoint(s.upBuf[|s.upBuf| - 1].key, s.upStart + |s.upBuf|))
  {
    hide ListAfter;
    KeyBeforeLists(L, s.upStart + |s.upBuf|);
  }

  lemma {:induction false} SettleUpKeeps(s: State, t: Tuning, L: seq<Row>, safe: nat)
    requires Ascending(L) && Sound(s, L) && Buffer(s, L) && s.needUp && !s.needDown
    ensures Inv(Session(SettleUp(s, t, safe), Idle), L)
  {
    hide Seat, Held, Ring, PushTop;
    SettleUpSound(s, t, L, safe);
  }

  lemma {:induction false} EmptyBackPage(s: State, t: Tuning, done: bool, at: nat, at': nat)
    ensures AppendBackRows(s, t, [], done, at) == AppendBackRows(s, t, [], done, at')
  {
  }

  lemma {:induction false} UpPageKeeps(x: Session, t: Tuning, L: seq<Row>, e: Event)
    requires Ascending(L) && Inv(x, L) && e.UpRows? && Possible(x, L, e) && UpFits(x, e.n, e.at)
    ensures Inv(Step(x, t, L, e), L)
  {
    hide Seat, Held, Ring, PushTop, Buffer, AppendBackRows, SettleUp;
    var at := x.wire.next;
    if e.n == 0 {
      EmptyBackPage(x.s, t, e.done, e.at, at);
      assert PageRows(x, L, e) == [];
    }
    AppendBackBuffer(x.s, t, L, e.n, e.done, at);
    AppendBackSound(x.s, t, L, e.n, e.done, at);
    SettleUpKeeps(AppendBackRows(x.s, t, PageRows(x, L, e), e.done, at), t, L, e.safe);
  }

  // ---------- whole runs ----------

  /** Every step keeps the invariant. */
  lemma {:induction false} StepKeeps(x: Session, t: Tuning, L: seq<Row>, e: Event)
    requires Ascending(L) && Inv(x, L) && Possible(x, L, e) && Fits(x, t, L, e)
    ensures Inv(Step(x, t, L, e), L)
  {
    hide Seat, Held, Slots, Ring, DownPage, UpPage, Need, Buffer;
    match e
    case Look(_, _, _) => LookKeeps(x, t, L, e);
    case DownRows(_, _, _) => DownPageKeeps(x, t, L, e);
    case DownFails => DownFailsKeeps(x, t, L, e);
    case UpRows(_, _, _, _) => UpPageKeeps(x, t, L, e);
    case UpFails(safe) => SettleUpKeeps(x.s, t, L, safe);
  }
}
