/** Climbs under any host: what a back page does to the ring and to the slots,
    whatever index the host names for it. */
module WindowClimbs {
  import opened Basics
  import opened Listing
  import opened WindowSpec
  import opened WindowSlices
  import opened WindowSeat
  import opened WindowLaws

  // ---------- the ring ----------

  /** The checkpoint a back page seats is true exactly when the page really
      starts at the index the host names. */
  lemma {:induction false} BackPageBindsExact(s: State, t: Tuning, L: seq<Row>, next: nat, n: nat, done: bool, at: nat)
    requires Ascending(L) && Ring(s.tops, L) && n > 0 && next + n <= |L|
    ensures Ring(AppendBackRows(s, t, L[next..next + n], done, at).tops, L) <==> at == next
  {
    hide PushTop, WalkPage;
    var cp := Checkpoint(L[next + n - 1].key, at + n);
    assert L[next..next + n][n - 1] == L[next + n - 1];
    if at + n <= |L| {
      BindingExact(L, next + n, at + n);
    }
    PushTopSeats(s.tops, cp.after, cp.index);
    if at == next {
      PushTopKeepsRing(s.tops, L, cp.after, cp.index);
    }
  }

  /** A host that names the checkpoint's own index for every page of a climb - the
      wiring of main.js, where cp never advances - seats a false checkpoint with
      the climb's second non-empty page. */
  lemma {:induction false} FixedCheckpointBreaks(
    s: State, t: Tuning, L: seq<Row>, cp: nat, n1: nat, n2: nat, done: bool)
    requires Ascending(L) && Ring(s.tops, L) && n1 > 0 && n2 > 0 && cp + n1 + n2 <= |L|
    ensures var s1 := AppendBackRows(s, t, L[cp..cp + n1], false, cp);
            var s2 := AppendBackRows(s1, t, L[cp + n1..cp + n1 + n2], done, cp);
            Ring(s1.tops, L) && !Ring(s2.tops, L)
  {
    hide AppendBackRows, Ring;
    BackPageBindsExact(s, t, L, cp, n1, false, cp);
    BackPageBindsExact(AppendBackRows(s, t, L[cp..cp + n1], false, cp), t, L, cp + n1, n2, done, cp);
  }

  // ---------- which pages put a row in the buffer ----------

  /** k slots from `at` on are held, the one behind them is owed. */
  predicate FirstOwed(s: State, at: nat, k: nat) {
    (forall i | at <= i < at + k :: s.At(i).Some?) && s.At(at + k) == None
  }

  predicate Reaches(s: State, t: Tuning, at: nat, k: nat) {
    FirstOwed(s, at, k) && at + k < s.Edge() && (k == 0 || s.upScanned + k < t.first)
  }

  /** The buffer has room, and the page's first owed slot lies in the window's span
      and within the pass-over budget. */
  predicate Takes(s: State, t: Tuning, at: nat, n: nat) {
    |s.upBuf| < t.win && exists k | 0 <= k < n :: Reaches(s, t, at, k)
  }

  lemma {:induction false} TakeGrows(s: State, t: Tuning, at: nat, n: nat, k: nat, take: nat, scanned: nat)
    requires take <= k <= n
    ensures WalkBack(s, t, at, n, k, take, scanned).take >= take
    decreases n - k
  {
    if k < n && |s.upBuf| + take < t.win {
      if s.At(at + k).Some? {
        if take == 0 && scanned + 1 < t.first {
          TakeGrows(s, t, at, n, k + 1, 0, scanned + 1);
        }
      } else if at + k < s.Edge() {
        TakeGrows(s, t, at, n, k + 1, take + 1, scanned);
      }
    }
  }

  lemma {:induction false} WalkFinds(s: State, t: Tuning, at: nat, n: nat, k: nat)
    requires k <= n && (k == 0 || s.upScanned + k < t.first)
    requires forall i | at <= i < at + k :: s.At(i).Some?
    ensures WalkBack(s, t, at, n, k, 0, s.upScanned + k).take > 0 <==>
            |s.upBuf| < t.win && exists j | k <= j < n :: Reaches(s, t, at, j)
    decreases n - k
  {
    if k < n && |s.upBuf| < t.win {
      if s.At(at + k).Some? {
        assert forall j | k <= j < n && Reaches(s, t, at, j) :: j > k;
        if s.upScanned + k + 1 < t.first {
          WalkFinds(s, t, at, n, k + 1);
        }
      } else {
        assert forall j | k < j < n :: !FirstOwed(s, at, j) by {
          forall j | k < j < n
            ensures !FirstOwed(s, at, j)
          {
            assert s.At(at + k) == None;
          }
        }
        if at + k < s.Edge() {
          assert Reaches(s, t, at, k);
          TakeGrows(s, t, at, n, k + 1, 1, s.upScanned + k);
        }
      }
    }
  }

  /** The acceptance loop takes a row exactly when the slots say so. */
  lemma {:induction false} TakesExact(s: State, t: Tuning, at: nat, n: nat)
    ensures WalkPage(s, t, at, n).take > 0 <==> Takes(s, t, at, n)
  {
    WalkFinds(s, t, at, n, 0);
  }

  // ---------- the slots ----------

  /** The slots as a settle would leave them, before its tail trim. */
  ghost predicate SettlesTrue(s: State, L: seq<Row>) {
    if s.upBuf == [] then Slots(s.all, s.base, L) else Slots(Seat(s).all, Seat(s).base, L)
  }

  /** The buffer is the listing's own run from where it starts. */
  ghost predicate TrueRun(s: State, L: seq<Row>) {
    s.upBuf != [] ==>
      && s.upStart <= s.Edge() && s.upStart + |s.upBuf| <= |L|
      && s.upBuf == L[s.upStart..s.upStart + |s.upBuf|]
  }

  lemma {:induction false} TrueRunSettles(s: State, L: seq<Row>)
    requires Slots(s.all, s.base, L) && s.upStart <= s.Edge()
    ensures SettlesTrue(s, L) <==> TrueRun(s, L)
  {
    hide Seat;
    if s.upBuf != [] {
      SeatSlotsExact(s, L);
    }
  }

  /** A page that takes rows takes them right where it starts, and the named slot
      is theirs: the first of a climb at its own index, a later one without a gap
      behind the buffer and opening on an owed slot. */
  predicate InPlace(s: State, next: nat, at: nat) {
    if s.upBuf == [] then at == next else next == s.upStart + |s.upBuf| && s.At(at) == None
  }

  lemma {:induction false} FirstPageRun(s: State, t: Tuning, L: seq<Row>, next: nat, n: nat, done: bool, at: nat)
    requires Ascending(L) && s.upBuf == [] && next + n <= |L| && WalkPage(s, t, at, n).take > 0
    ensures var r := AppendBackRows(s, t, L[next..next + n], done, at);
            r.upBuf != []
            && (r.upStart + |r.upBuf| <= |L| && r.upBuf == L[r.upStart..r.upStart + |r.upBuf|] <==> at == next)
  {
    hide PushTop, Ascending, WalkPage;
    var w := WalkPage(s, t, at, n);
    var r := AppendBackRows(s, t, L[next..next + n], done, at);
    Subslice(L, next, n, w.stop - w.take, w.stop);
    assert r.upBuf == L[next + w.stop - w.take..next + w.stop];
    if r.upStart + |r.upBuf| <= |L| && r.upBuf == L[r.upStart..r.upStart + |r.upBuf|] {
      assert r.upBuf[0] == L[next + w.stop - w.take] == L[at + w.stop - w.take];
      AscendingDistinct(L, next + w.stop - w.take, at + w.stop - w.take);
    }
  }

  /** A run with a later run behind it is one run exactly when nothing lies between. */
  lemma {:induction false} JoinExact(L: seq<Row>, start: nat, end: nat, skip: nat, k: nat)
    requires Ascending(L) && start < end && k > 0 && end + skip + k <= |L|
    ensures L[start..end] + L[end + skip..end + skip + k] == L[start..end + k] <==> skip == 0
  {
    hide Ascending;
    var joined := L[start..end] + L[end + skip..end + skip + k];
    assert joined[end - start] == L[end + skip];
    if joined == L[start..end + k] {
      assert L[start..end + k][end - start] == L[end];
      AscendingDistinct(L, end, end + skip);
    }
  }

  /** What a back page adds to a buffer, in listing rows. */
  lemma {:induction false} Buffered(s: State, t: Tuning, L: seq<Row>, next: nat, n: nat, done: bool, at: nat)
    requires next + n <= |L| && s.upBuf != []
    ensures var w := WalkPage(s, t, at, n);
            var r := AppendBackRows(s, t, L[next..next + n], done, at);
            r.upStart == s.upStart && r.upBuf == s.upBuf + L[next + (w.stop - w.take)..next + w.stop]
  {
    hide PushTop, WalkPage;
    var w := WalkPage(s, t, at, n);
    Subslice(L, next, n, w.stop - w.take, w.stop);
  }

  lemma {:induction false} LaterPageRun(s: State, t: Tuning, L: seq<Row>, next: nat, n: nat, done: bool, at: nat)
    requires Ascending(L) && s.upBuf != [] && WalkPage(s, t, at, n).take > 0 && next + n <= |L|
    requires var end := s.upStart + |s.upBuf|; end <= next && s.upBuf == L[s.upStart..end]
    ensures var end := s.upStart + |s.upBuf|;
            var r := AppendBackRows(s, t, L[next..next + n], done, at);
            r.upStart + |r.upBuf| <= |L| && r.upBuf == L[r.upStart..r.upStart + |r.upBuf|] <==>
            next == end && WalkPage(s, t, at, n).stop == WalkPage(s, t, at, n).take
  {
    hide AppendBackRows, Ascending, WalkPage;
    var end := s.upStart + |s.upBuf|;
    var w := WalkPage(s, t, at, n);
    Buffered(s, t, L, next, n, done, at);
    var skip := next + (w.stop - w.take) - end;
    assert end + skip + w.take == next + w.stop;
    JoinExact(L, s.upStart, end, skip, w.take);
  }

  /** A walk that takes starts taking at its page's first slot exactly when that
      slot is owed. */
  lemma {:induction false} TakesAtOnce(s: State, t: Tuning, at: nat, n: nat)
    requires WalkPage(s, t, at, n).take > 0
    ensures WalkPage(s, t, at, n).stop == WalkPage(s, t, at, n).take <==> s.At(at) == None
    ensures at + WalkPage(s, t, at, n).stop - WalkPage(s, t, at, n).take < s.Edge()
  {
    WalkTakesOwed(s, t, at, n, 0, 0, s.upScanned);
    var w := WalkPage(s, t, at, n);
    assert s.At(at + w.stop - w.take) == None;
    if w.stop > w.take {
      assert s.At(at).Some?;
    }
  }

  lemma {:induction false} FirstPageTrue(s: State, t: Tuning, L: seq<Row>, next: nat, n: nat, done: bool, at: nat)
    requires Ascending(L) && s.upBuf == [] && next + n <= |L| && WalkPage(s, t, at, n).take > 0
    ensures var r := AppendBackRows(s, t, L[next..next + n], done, at);
            r.upStart <= r.Edge() && (TrueRun(r, L) <==> at == next)
  {
    hide PushTop, Ascending, WalkPage;
    TakesAtOnce(s, t, at, n);
    FirstPageRun(s, t, L, next, n, done, at);
  }

  lemma {:induction false} LaterPageTrue(s: State, t: Tuning, L: seq<Row>, next: nat, n: nat, done: bool, at: nat)
    requires Ascending(L) && s.upBuf != [] && WalkPage(s, t, at, n).take > 0 && next + n <= |L|
    requires s.upStart + |s.upBuf| <= next && TrueRun(s, L)
    ensures var r := AppendBackRows(s, t, L[next..next + n], done, at);
            r.upStart <= r.Edge() && (TrueRun(r, L) <==> InPlace(s, next, at))
  {
    hide PushTop, Ascending, WalkPage;
    TakesAtOnce(s, t, at, n);
    LaterPageRun(s, t, L, next, n, done, at);
  }

  lemma {:induction false} PassedOver(s: State, t: Tuning, rows: seq<Row>, done: bool, at: nat)
    requires WalkPage(s, t, at, |rows|).take == 0
    ensures var r := AppendBackRows(s, t, rows, done, at);
            r.upBuf == s.upBuf && r.upStart == s.upStart && r.all == s.all && r.base == s.base
  {
    hide PushTop, WalkPage;
  }

  /** Whatever index the host names for it, a back page leaves the buffer the
      listing's own run exactly when it takes no row or takes them in place. */
  lemma {:induction false} BackPageRunExact(s: State, t: Tuning, L: seq<Row>, next: nat, n: nat, done: bool, at: nat)
    requires Ascending(L) && TrueRun(s, L) && next + n <= |L|
    requires s.upBuf != [] ==> s.upStart + |s.upBuf| <= next
    ensures TrueRun(AppendBackRows(s, t, L[next..next + n], done, at), L) <==>
            !Takes(s, t, at, n) || InPlace(s, next, at)
    ensures var r := AppendBackRows(s, t, L[next..next + n], done, at); r.upBuf != [] ==> r.upStart <= r.Edge()
  {
    hide AppendBackRows, Ascending, WalkPage, Takes;
    TakesExact(s, t, at, n);
    if WalkPage(s, t, at, n).take == 0 {
      PassedOver(s, t, L[next..next + n], done, at);
    } else if s.upBuf == [] {
      FirstPageTrue(s, t, L, next, n, done, at);
    } else {
      LaterPageTrue(s, t, L, next, n, done, at);
    }
  }

  /** And so do the slots: a climb's page settles every row into its own slot
      exactly when it takes none or takes them in place. */
  lemma {:induction false} BackPageSlotsExact(s: State, t: Tuning, L: seq<Row>, next: nat, n: nat, done: bool, at: nat)
    requires Ascending(L) && Slots(s.all, s.base, L) && TrueRun(s, L) && next + n <= |L|
    requires s.upBuf != [] ==> s.upStart + |s.upBuf| <= next
    ensures SettlesTrue(AppendBackRows(s, t, L[next..next + n], done, at), L) <==>
            !Takes(s, t, at, n) || InPlace(s, next, at)
  {
    hide PushTop, Ascending, WalkPage, Takes, InPlace, TrueRun;
    BackPageRunExact(s, t, L, next, n, done, at);
    var r := AppendBackRows(s, t, L[next..next + n], done, at);
    if r.upBuf != [] {
      TrueRunSettles(r, L);
    } else {
      assert TrueRun(r, L) by { EmptyRun(r, L); }
    }
  }

  lemma {:induction false} EmptyRun(s: State, L: seq<Row>)
    requires s.upBuf == []
    ensures TrueRun(s, L)
  {
  }

  /** With every page at its own index only a seam can misplace: the slots come out
      true exactly when no row joins a buffer across a gap or held ground. */
  lemma {:induction false} BackPageSeamExact(s: State, t: Tuning, L: seq<Row>, next: nat, n: nat, done: bool)
    requires Ascending(L) && Slots(s.all, s.base, L) && TrueRun(s, L) && next + n <= |L|
    requires s.upBuf != [] ==> s.upStart + |s.upBuf| <= next
    ensures SettlesTrue(AppendBackRows(s, t, L[next..next + n], done, next), L) <==>
            !Takes(s, t, next, n) || s.upBuf == [] || (next == s.upStart + |s.upBuf| && s.At(next) == None)
  {
    hide AppendBackRows, Takes, SettlesTrue, TrueRun;
    BackPageSlotsExact(s, t, L, next, n, done, next);
  }

  /** With one index cp named for every page, a page past the first keeps the slots
      true exactly when it takes none, or joins the buffer right behind it and the
      checkpoint's own slot is owed. */
  lemma {:induction false} FixedCheckpointExact(
    s: State, t: Tuning, L: seq<Row>, cp: nat, seen: nat, n: nat, done: bool)
    requires Ascending(L) && Slots(s.all, s.base, L) && TrueRun(s, L) && seen > 0 && cp + seen + n <= |L|
    requires s.upBuf != [] ==> s.upStart + |s.upBuf| <= cp + seen
    ensures SettlesTrue(AppendBackRows(s, t, L[cp + seen..cp + seen + n], done, cp), L) <==>
            !Takes(s, t, cp, n) || (s.upBuf != [] && cp + seen == s.upStart + |s.upBuf| && s.At(cp) == None)
  {
    hide AppendBackRows, Takes, SettlesTrue, TrueRun;
    BackPageSlotsExact(s, t, L, cp + seen, n, done, cp);
  }

  // ---------- when a climb closes ----------

  /** A back page closes its climb exactly when it is the listing's last, some page
      before was, the walk was hit, or the buffer is a window's worth; nothing of a
      climb clears the mark of a last page, so every later climb closes with its
      first page. */
  lemma {:induction false} ClimbCloses(s: State, t: Tuning, rows: seq<Row>, done: bool, at: nat, safe: nat)
    requires s.needUp
    ensures var w := WalkPage(s, t, at, |rows|);
            var r := UpPage(s, t, rows, done, at, safe);
            && (!r.needUp <==> done || s.upDone || s.upHit || w.hit || |s.upBuf| + w.take >= t.win)
            && (r.upDone <==> s.upDone || done)
            && (!r.needUp ==> r.upBuf == [])
  {
    hide PushTop, SeatCells, Without, Held, WalkPage;
  }
}
