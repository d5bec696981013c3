/** What a page leaves to see and to climb from: every slot after a down page, a climb
    and a trim, and the checkpoints each of them seats. */
module WindowShows {
  import opened Basics
  import opened Listing
  import opened WindowSpec
  import opened WindowSlices
  import opened WindowSeat
  import opened WindowLaws
  import opened WindowRuns
  import opened WindowDown

  // ---------- slots after trims ----------

  lemma {:induction false} TrimTopShows(s: State, t: Tuning, safe: nat, i: nat)
    ensures var r := TrimTop(s, t, safe);
            r.Edge() == s.Edge() && r.base >= s.base && r.At(i) == if i < r.base then None else s.At(i)
  {
    hide CutTops, Without;
  }

  lemma {:induction false} TrimBottomShows(s: State, t: Tuning, safe: nat, i: nat)
    ensures var r := TrimBottom(s, t, safe);
            && r.Edge() <= s.Edge() && r.base == s.base && SameDemand(s, r)
            && r.At(i) == if i < r.Edge() then s.At(i) else None
  {
    hide Without;
  }

  // ---------- a down page ----------

  lemma {:induction false} AppendShows(s: State, rows: seq<Row>, i: nat)
    requires rows != [] && |rows| >= Band(s.all)
    ensures var next := s.Edge() - Band(s.all);
            AppendRows(s, rows).At(i) ==
            if next <= i < next + |rows| then Some(rows[i - next]) else if i < next then s.At(i) else None
  {
    hide Band, Somes;
    var next := s.Edge() - Band(s.all);
    if next <= i < next + |rows| {
      SomesAt(rows, i - next);
    }
  }

  lemma {:induction false} LandShows(s: State, t: Tuning, acc: seq<Row>, safe: nat, i: nat)
    requires acc != [] && |acc| >= Band(s.all)
    ensures var next := s.Edge() - Band(s.all);
            var r := Land(s, t, acc, safe);
            && r.Edge() == next + |acc| && r.base >= s.base && Band(r.all) == 0
            && r.At(i) == if i < r.base then None
                          else if next <= i < next + |acc| then Some(acc[i - next])
                          else if i < next then s.At(i) else None
  {
    hide Band, AppendCells, PushTop, LastKey, TrimTop, Held;
    AppendShows(s, acc, i);
    assert PushEdge(AppendRows(s, acc)).At(i) == AppendRows(s, acc).At(i);
    LandLast(s, t, acc, safe);
    BandZero(Land(s, t, acc, safe).all);
    TrimTopShows(PushEdge(AppendRows(s, acc)), t, safe, i);
  }

  /** A fitting page, slot by slot: its rows stand in the slots that were owed first,
      every slot above them shows what it showed, save those a head trim let go. */
  lemma {:induction false} DownPageShows(x: Session, t: Tuning, L: seq<Row>, e: Event, i: nat)
    requires Ascending(L) && Inv(x, L) && e.DownRows? && e.n > 0 && Possible(x, L, e) && DownFits(x.s, e.n, e.done)
    ensures var next := x.wire.next;
            var r := Step(x, t, L, e).s;
            && r.Edge() == next + (if e.done then e.n else Min(e.n, x.s.winTarget - x.s.Edge()))
            && r.At(i) == if i < r.base then None
                          else if next <= i < r.Edge() then Some(L[i])
                          else if i < next then x.s.At(i) else None
  {
    hide DownPage, Band, DownFits, Held, Slots, Ring;
    PageShows(x, t, L, e, i);
  }

  lemma {:induction false} PageShows(x: Session, t: Tuning, L: seq<Row>, e: Event, i: nat)
    requires Ascending(L) && Inv(x, L) && e.DownRows? && e.n > 0 && Possible(x, L, e) && DownFits(x.s, e.n, e.done)
    ensures var next := x.wire.next;
            var r := DownPage(x.s, t, PageRows(x, L, e), e.done, e.safe);
            && r.Edge() == next + (if e.done then e.n else AcceptCount(x.s, e.n))
            && r.At(i) == if i < r.base then None
                          else if next <= i < r.Edge() then Some(L[i])
                          else if i < next then x.s.At(i) else None
  {
    hide Land, Band, Held, AppendCells, Slots, Ring, FinishPage;
    var next, k := x.wire.next, AcceptCount(x.s, e.n);
    var rows := PageRows(x, L, e);
    LandShows(x.s, t, rows[..k], e.safe, i);
    FinishShows(Land(x.s, t, rows[..k], e.safe), rows[k..], e.done, i);
  }

  /** A page's end appends what the budget left out, if it is the last, and moves
      nothing else. */
  lemma {:induction false} FinishShows(s: State, tail: seq<Row>, done: bool, i: nat)
    requires Band(s.all) == 0
    ensures var r := FinishPage(s, tail, done);
            && r.base == s.base && r.Edge() == s.Edge() + (if done then |tail| else 0)
            && r.At(i) == if done && s.Edge() <= i < r.Edge() then Some(tail[i - s.Edge()]) else s.At(i)
  {
    hide Band, Held, AppendCells;
    if done && tail != [] {
      AppendShows(s, tail, i);
      TailEdge(s, tail);
    } else if done {
      AppendNothing(s, tail);
    }
  }

  lemma {:induction false} TailEdge(s: State, rows: seq<Row>)
    requires Band(s.all) == 0
    ensures AppendRows(s, rows).Edge() == s.Edge() + |rows|
  {
  }

  // ---------- the checkpoints a down page seats ----------

  /** A landed page seats its edge, bound to the highest key then held; a head trim seats
      the index behind the last real row it lets go. Both stand afterwards. */
  lemma {:induction false} LandSeats(s: State, t: Tuning, acc: seq<Row>, safe: nat)
    requires acc != [] && |s.tops| <= RING_MAX
    ensures var all := AppendCells(s.all, acc);
            var r := Land(s, t, acc, safe);
            var head := all[..|all| - |r.all|];
            && |r.all| <= |all|
            && Checkpoint(LastKey(all), s.base + |all|) in r.tops
            && (Band(head) < |head| ==>
                  Checkpoint(head[|head| - Band(head) - 1].value.key, s.base + |head| - Band(head)) in r.tops)
  {
    hide AppendCells, PushTop, LastKey, Band, Without;
    var all := AppendCells(s.all, acc);
    PushTopLast(s.tops, LastKey(all), s.base + |all|);
    PushTopSeats(s.tops, LastKey(all), s.base + |all|);
    var e := PushEdge(AppendRows(s, acc));
    var cut := CutOf(e, t, safe);
    var head := all[..cut];
    assert |all| - |Land(s, t, acc, safe).all| == cut;
    if cut > 0 && Band(head) < cut {
      PushTopSparesLast(e.tops, head[cut - Band(head) - 1].value.key, s.base + cut - Band(head));
      PushTopSeats(e.tops, head[cut - Band(head) - 1].value.key, s.base + cut - Band(head));
    } else if cut == 0 {
      assert head == [];
    }
  }

  // ---------- a climb ----------

  /** A settled climb, slot by slot: the buffer's slots show its rows, every other slot
      what it showed, up to where the tail trim cuts. */
  lemma {:induction false} SettleUpShows(s: State, t: Tuning, safe: nat, i: nat)
    requires s.upBuf != [] && s.upStart <= s.Edge()
    ensures var r := SettleUp(s, t, safe);
            && r.base == Min(s.base, s.upStart) && r.upBuf == [] && !r.needUp
            && |r.all| == Max(Min(|Seat(s).all|, t.max), |Seat(s).all| - safe)
            && r.At(i) == if i >= r.Edge() then None
                          else if s.upStart <= i < s.upStart + |s.upBuf| then Some(s.upBuf[i - s.upStart])
                          else s.At(i)
  {
    hide Seat, PushTop, TrimBottom, Held;
    SeatEdge(s);
    SeatPlaces(s, i);
    TrimBottomShows(Landed(s), t, safe, i);
    TrimsBound(Landed(s), t, safe);
  }

  /** It seats the index behind its last row. */
  lemma {:induction false} SettleUpSeats(s: State, t: Tuning, safe: nat)
    requires s.upBuf != [] && |s.tops| <= RING_MAX
    ensures Checkpoint(s.upBuf[|s.upBuf| - 1].key, s.upStart + |s.upBuf|) in SettleUp(s, t, safe).tops
  {
    hide SeatCells, PushTop, Without, Held;
    PushTopSeats(s.tops, s.upBuf[|s.upBuf| - 1].key, s.upStart + |s.upBuf|);
  }

  /** And so does every page it examined, taken or passed over. */
  lemma {:induction false} BackPageSeats(s: State, t: Tuning, rows: seq<Row>, done: bool, at: nat)
    requires rows != [] && |s.tops| <= RING_MAX
    ensures Checkpoint(rows[|rows| - 1].key, at + |rows|) in AppendBackRows(s, t, rows, done, at).tops
  {
    hide WalkPage, PushTop;
    PushTopSeats(s.tops, rows[|rows| - 1].key, at + |rows|);
  }

  // ---------- the walk over a back page ----------

  /** k held slots from `at` on, then m owed ones inside the window. */
  predicate Stretch(s: State, at: nat, k: nat, m: nat) {
    && (forall i | at <= i < at + k :: s.At(i).Some?)
    && (forall i | at + k <= i < at + k + m :: s.At(i) == None && i < s.Edge())
  }

  /** The walk passes `stop - take` held slots and takes the `take` owed ones behind
      them. It ends with the page, or with the buffer at one window's worth, or else it
      was hit: by a held slot behind taken rows, by a held slot that spends the budget
      of one first window, or by the window's edge. */
  predicate WalkedBy(s: State, t: Tuning, at: nat, n: nat, scanned: nat, w: Walk) {
    w.take <= w.stop <= n &&
    var passed := w.stop - w.take;
    var full := |s.upBuf| + w.take >= t.win;
    var held := s.At(at + w.stop).Some?;
    && Stretch(s, at, passed, w.take)
    && (passed > 0 ==> |s.upBuf| < t.win && scanned + passed < t.first)
    && (w.take > 0 ==> |s.upBuf| + w.take <= t.win)
    && (w.hit <==> w.stop < n && !full)
    && (w.hit ==> if held then w.take > 0 || scanned + passed + 1 >= t.first else at + w.stop >= s.Edge())
    && w.scanned == scanned + passed + (if w.hit && held && w.take == 0 then 1 else 0)
  }

  lemma {:induction false} WalkFrom(s: State, t: Tuning, at: nat, n: nat, k: nat, take: nat, scanned: nat)
    requires take <= k <= n && Stretch(s, at, k - take, take)
    requires k - take > 0 ==> |s.upBuf| < t.win && scanned + (k - take) < t.first
    requires take > 0 ==> |s.upBuf| + take <= t.win
    ensures WalkedBy(s, t, at, n, scanned, WalkBack(s, t, at, n, k, take, scanned + (k - take)))
    decreases n - k
  {
    if k < n && |s.upBuf| + take < t.win {
      if s.At(at + k).Some? {
        if take == 0 && scanned + k + 1 < t.first {
          WalkFrom(s, t, at, n, k + 1, 0, scanned);
        }
      } else if at + k < s.Edge() {
        WalkFrom(s, t, at, n, k + 1, take + 1, scanned);
      }
    }
  }

  /** The acceptance loop, said on the slots alone - and no other walk fits. */
  lemma {:induction false} WalkExact(s: State, t: Tuning, at: nat, n: nat, w: Walk)
    ensures w == WalkPage(s, t, at, n) <==> WalkedBy(s, t, at, n, s.upScanned, w)
  {
    WalkFrom(s, t, at, n, 0, 0, s.upScanned);
    if WalkedBy(s, t, at, n, s.upScanned, w) {
      WalksAgree(s, t, at, n, s.upScanned, w, WalkPage(s, t, at, n));
    }
  }

  lemma {:induction false} WalksAgree(s: State, t: Tuning, at: nat, n: nat, scanned: nat, v: Walk, w: Walk)
    requires WalkedBy(s, t, at, n, scanned, v) && WalkedBy(s, t, at, n, scanned, w)
    ensures v == w
  {
    hide WalkedBy;
    NoShorter(s, t, at, n, scanned, v, w);
    NoShorter(s, t, at, n, scanned, w, v);
    SameEnd(s, t, at, n, scanned, v, w);
  }

  lemma {:induction false} NoShorter(s: State, t: Tuning, at: nat, n: nat, scanned: nat, v: Walk, w: Walk)
    requires WalkedBy(s, t, at, n, scanned, v) && WalkedBy(s, t, at, n, scanned, w)
    ensures v.take <= v.stop && w.take <= w.stop
    ensures v.stop - v.take >= w.stop - w.take
    ensures v.stop - v.take == w.stop - w.take ==> v.take >= w.take
  {
    hide Stretch;
    var i, j := at + v.stop - v.take, at + v.stop;
    StretchAt(s, at, w.stop - w.take, w.take, i);
    StretchAt(s, at, w.stop - w.take, w.take, j);
    StretchAt(s, at, v.stop - v.take, v.take, i);
  }

  lemma {:induction false} StretchAt(s: State, at: nat, k: nat, m: nat, i: nat)
    requires Stretch(s, at, k, m)
    ensures at <= i < at + k ==> s.At(i).Some?
    ensures at + k <= i < at + k + m ==> s.At(i) == None && i < s.Edge()
  {
  }

  lemma {:induction false} SameEnd(s: State, t: Tuning, at: nat, n: nat, scanned: nat, v: Walk, w: Walk)
    requires WalkedBy(s, t, at, n, scanned, v) && WalkedBy(s, t, at, n, scanned, w)
    requires v.stop == w.stop && v.take == w.take
    ensures v == w
  {
    hide Stretch;
  }
}
