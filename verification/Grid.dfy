/** The grid's window as the object it is: fields its methods update in place,
    each method proved against its function in WindowSpec. */
module Grid {
  import opened Basics
  import opened Listing
  import opened WindowSpec
  import opened WindowSlices
  import opened WindowSeat
  import opened WindowDemand

  class Window {
    const tune: Tuning
    var all: seq<Cell>
    var base: nat
    var rows: seq<Row>
    var tops: seq<Checkpoint>
    var winTarget: nat
    var streaming: bool
    var streamDone: bool
    var universe: Option<nat>
    var needDown: bool
    var needUp: bool
    var upHit: bool
    var upDone: bool
    var upBuf: seq<Row>
    var upStart: nat
    var upScanned: nat

    function View(): State
      reads this
    {
      State(all, base, rows, tops, winTarget, streaming, streamDone, universe,
            needDown, needUp, upHit, upDone, upBuf, upStart, upScanned)
    }

    constructor (tune: Tuning)
      ensures this.tune == tune && all == [] && base == 0
    {
      this.tune := tune;
      all, base, rows, tops, winTarget := [], 0, [], [], 0;
      streaming, streamDone, universe, needDown, needUp := false, true, None, false, false;
      upHit, upDone, upBuf, upStart, upScanned := false, false, [], 0, 0;
    }

    /** Both folds and openings leave no climb behind. */
    method ForgetClimb()
      modifies this`needUp, this`upBuf, this`upDone, this`upStart, this`upScanned
      ensures View() == old(View()).(needUp := false, upBuf := [], upDone := false, upStart := 0, upScanned := 0)
    {
      needUp := false;
      upBuf := [];
      upDone := false;
      upStart := 0;
      upScanned := 0;
    }

    method EmptyModel()
      modifies this`all, this`rows, this`base, this`tops, this`winTarget
      ensures View() == old(View()).(all := [], rows := [], base := 0, tops := [], winTarget := 0)
    {
      winTarget := 0;
      base := 0;
      tops := [];
      all := [];
      rows := [];
    }

    /** setRows([]): folds whatever session stood and empties the model. */
    method Clear()
      modifies this
      ensures View() == State([], 0, [], [], 0, false, true, Some(0), false, false, old(upHit), false, [], 0, 0)
    {
      streaming := false;
      streamDone := true;
      needDown := false;
      ForgetClimb();
      EmptyModel();
      universe := Some(0);
    }

    method ArmFirstWalk()
      modifies this`streaming, this`streamDone, this`universe, this`needDown
      ensures View() == old(View()).(streaming := true, streamDone := false, universe := None, needDown := true)
    {
      streaming := true;
      streamDone := false;
      needDown := true;
      universe := None;
    }

    /** The target is set against the old base, before the window resets. */
    method BeginStream()
      modifies this
      ensures View() == old(View()).(
        streaming := true, streamDone := false, winTarget := old(View()).Edge() + tune.first, base := 0,
        tops := [Checkpoint("", 0)], needDown := true, needUp := false, upHit := false, upBuf := [],
        upDone := false, upStart := 0, upScanned := 0, universe := None)
    {
      ArmFirstWalk();
      winTarget := base + |all| + tune.first;
      base := 0;
      tops := [Checkpoint("", 0)];
      ForgetClimb();
      upHit := false;
    }

    /** The way every walk opens; the result is the session start of WindowRuns. */
    method Open()
      modifies this
      ensures View() == Opened(tune)
    {
      Clear();
      BeginStream();
    }

    // ---------- the checkpoint ring ----------

    method PushTop(after: string, index: nat)
      modifies this`tops
      ensures tops == WindowSpec.PushTop(old(tops), after, index)
    {
      if |tops| > 0 && tops[|tops| - 1].index == index {
        tops := tops[..|tops| - 1] + [Checkpoint(after, index)];
        return;
      }
      tops := tops + [Checkpoint(after, index)];
      if |tops| > RING_MAX {
        ghost var pushed := tops;
        var i := |tops| / 2 - 1;
        while i >= 1
          invariant i < |tops|
          invariant ThinFrom(tops, i) == ThinFrom(pushed, |pushed| / 2 - 1)
          decreases i
        {
          tops := RemoveAt(tops, i);
          i := i - 2;
        }
        if |tops| > RING_MAX {
          tops := tops[..1] + tops[1 + (|tops| - RING_MAX)..];
        }
      }
    }

    method FindTopBelow(index: nat) returns (best: Checkpoint)
      ensures best == TopBelow(tops, index)
    {
      if tops == [] {
        return Checkpoint("", 0);
      }
      best := tops[0];
      var i := 0;
      while i < |tops|
        invariant 0 <= i <= |tops|
        invariant BestFrom(tops[i..], index, best) == TopBelow(tops, index)
      {
        if best.index <= tops[i].index <= index {
          best := tops[i];
        }
        i := i + 1;
      }
    }

    // ---------- the downward side ----------

    method FindLastKey() returns (k: string)
      ensures k == LastKey(all)
    {
      k := "";
      var i := 0;
      while i < |all|
        invariant 0 <= i <= |all|
        invariant k == LastKey(all[..i])
      {
        assert all[..i + 1][..i] == all[..i];
        if all[i].Some? && Less(k, all[i].value.key) {
          k := all[i].value.key;
        }
        i := i + 1;
      }
      assert all[..|all|] == all;
    }

    /** Rows in listing order; a trailing tombstone band materializes first. */
    method AppendRows(page: seq<Row>)
      modifies this`all, this`rows
      ensures View() == WindowSpec.AppendRows(old(View()), page)
    {
      hide Band, Held, Somes;
      if |page| == 0 {
        assert all[..|all|] + Somes(page) == all && rows + page == rows;
        return;
      }
      var band := 0;
      while band < |page| && |all| - 1 - band >= 0 && all[|all| - 1 - band] == None
        invariant 0 <= band <= |page| && band <= Band(all)
      {
        band := band + 1;
      }
      if band < |page| && band < Band(all) {
        BandAt(all, |all| - 1 - band);
      }
      SomesConcat(page[..band], page[band..]);
      assert page[..band] + page[band..] == page;
      ghost var keep := all[..|all| - band];
      all := all[..|all| - band] + Somes(page[..band]);
      all := all + Somes(page[band..]);
      assert all == keep + Somes(page);
      rows := rows + page;
    }

    /** The length of a cut up to and including its last real row. */
    method LastRealBefore(cut: nat) returns (k: nat)
      requires cut <= |all|
      ensures k == cut - Band(all[..cut])
    {
      ghost var head := all[..cut];
      k := cut;
      while k > 0 && all[k - 1] == None
        invariant cut - Band(head) <= k <= cut
      {
        assert head[k - 1] == all[k - 1];
        k := k - 1;
      }
      if k > cut - Band(head) {
        BandAt(head, k - 1);
      }
    }

    method CutHead(cut: nat)
      requires cut <= |all|
      modifies this`all, this`base, this`rows, this`tops
      ensures View() == WindowSpec.CutHead(old(View()), cut)
    {
      hide Band, Without, WindowSpec.PushTop;
      var k := LastRealBefore(cut);
      if k > 0 {
        PushTop(all[k - 1].value.key, base + k);
      }
      rows := Without(rows, all[..cut]);
      all := all[cut..];
      base := base + cut;
    }

    method TrimTop(safe: nat)
      modifies this`all, this`base, this`rows, this`tops
      ensures View() == WindowSpec.TrimTop(old(View()), tune, safe)
    {
      hide WindowSpec.CutHead;
      if |all| <= tune.max {
        return;
      }
      var over := |all| - tune.max;
      var cut := if over <= safe then over else safe;
      if cut > 0 {
        CutHead(cut);
      }
    }

    method AppendStreamRows(page: seq<Row>, safe: nat) returns (acc: seq<Row>)
      modifies this`all, this`base, this`rows, this`tops
      ensures acc == page[..AcceptCount(old(View()), |page|)]
      ensures View() == WindowSpec.AppendStreamRows(old(View()), tune, page, safe)
    {
      hide Band, LastKey, WindowSpec.TrimTop, WindowSpec.PushTop, AppendCells;
      if |page| == 0 {
        return page;
      }
      var room := winTarget - (base + |all|);
      acc := page;
      if room <= 0 {
        acc := [];
      } else if |page| > room {
        acc := page[..room];
      }
      if |acc| > 0 {
        AppendRows(acc);
        var k := FindLastKey();
        PushTop(k, base + |all|);
        TrimTop(safe);
      }
    }

    method SettleDown(done: bool)
      modifies this`needDown, this`streamDone, this`universe, this`rows
      ensures View() == WindowSpec.SettleDown(old(View()), done)
    {
      if !streaming && !needDown && !needUp {
        return;
      }
      needDown := false;
      if done {
        streamDone := true;
        universe := Some(base + |all|);
      }
      rows := Held(all);
    }

    method FireDown()
      modifies this`needDown, this`winTarget
      ensures View() == WindowSpec.FireDown(old(View()), tune)
    {
      if needDown || needUp {
        return;
      }
      needDown := true;
      winTarget := base + |all| + tune.win;
    }

    // ---------- the upward side ----------

    /** The walk over a back page, slot by slot from `at`. */
    method WalkBackPage(at: nat, n: nat) returns (w: Walk)
      ensures w == WalkPage(View(), tune, at, n)
    {
      var k, take, hit := 0, 0, false;
      var scanned: nat := upScanned;
      while k < n && |upBuf| + take < tune.win && !hit
        invariant take <= k <= n
        invariant if hit then WalkPage(View(), tune, at, n) == Walk(k, take, true, scanned)
                  else WalkPage(View(), tune, at, n) == WalkBack(View(), tune, at, n, k, take, scanned)
        decreases n - k, !hit
      {
        var rel := at + k - base;
        if rel >= 0 && rel < |all| && all[rel].Some? {
          if take > 0 {
            hit := true; // a held slot behind the taken rows ends the walk
          } else {
            scanned := scanned + 1;
            if scanned >= tune.first {
              hit := true;
            } else {
              k := k + 1;
            }
          }
        } else if rel >= |all| {
          hit := true; // past the edge only a down fetch may land rows
        } else {
          take := take + 1;
          k := k + 1;
        }
      }
      w := Walk(k, take, hit, scanned);
    }

    /** The page's rows land in the buffer where the model owes them; `at` is the
        listing index of the page's first row as the host names it (cp.index). */
    method AppendBackRows(page: seq<Row>, done: bool, at: nat) returns (n: nat)
      modifies this`upDone, this`upHit, this`upScanned, this`upStart, this`upBuf, this`tops
      ensures View() == WindowSpec.AppendBackRows(old(View()), tune, page, done, at)
      ensures n == |upBuf| - |old(upBuf)|
    {
      hide WindowSpec.PushTop, WalkPage;
      var w := WalkBackPage(at, |page|);
      n := w.take;
      SeatPage(page, at);
      NoteWalk(w, done);
      BufferRows(page[w.stop - w.take..w.stop], at + w.stop - w.take);
    }

    method SeatPage(page: seq<Row>, at: nat)
      modifies this`tops
      ensures View() == old(View()).(
        tops := if page != [] then WindowSpec.PushTop(old(tops), page[|page| - 1].key, at + |page|) else old(tops))
    {
      hide WindowSpec.PushTop;
      if |page| > 0 {
        PushTop(page[|page| - 1].key, at + |page|);
      }
    }

    method NoteWalk(w: Walk, done: bool)
      modifies this`upDone, this`upHit, this`upScanned
      ensures View() == old(View()).(
        upDone := old(upDone) || done, upHit := old(upHit) || w.hit, upScanned := w.scanned)
    {
      upDone := upDone || done;
      upHit := upHit || w.hit;
      upScanned := w.scanned;
    }

    method BufferRows(acc: seq<Row>, start: nat)
      modifies this`upStart, this`upBuf
      ensures View() == old(View()).(
        upStart := if old(upBuf) == [] && acc != [] then start else old(upStart), upBuf := old(upBuf) + acc)
    {
      if upBuf == [] && acc != [] {
        upStart := start;
      }
      upBuf := upBuf + acc;
    }

    method BackfillDone() returns (b: bool)
      ensures b == WindowSpec.BackfillDone(View(), tune)
    {
      b := upDone || upHit || |upBuf| >= tune.win;
    }

    /** Only slots past the view leave, and only down to the ceiling; every slot
        that stays shows what it showed. */
    method TrimBottom(safe: nat)
      modifies this`all, this`rows
      ensures View() == WindowSpec.TrimBottom(old(View()), tune, safe)
      ensures forall i: nat :: View().At(i) == if i < View().Edge() then old(View()).At(i) else None
      ensures old(View()).Edge() - safe <= View().Edge() <= old(View()).Edge()
      ensures Min(old(|all|), tune.max) <= |all| && (old(|all|) - tune.max <= safe ==> |all| <= tune.max)
    {
      hide Without;
      if |all| <= tune.max {
        return;
      }
      var over := |all| - tune.max;
      var cut := if over <= safe then over else safe;
      if cut <= 0 {
        return;
      }
      var dropped := all[|all| - cut..];
      all := all[..|all| - cut];
      rows := Without(rows, dropped);
    }

    /** A climb's rows take their slots: the buffer's slots show its rows in order,
        every other slot shows what it showed, and unless the fill runs past it the
        bottom edge stands. */
    method SeatBuffer()
      modifies this`all, this`base
      ensures View() == Seat(old(View()))
      ensures old(upBuf != [] && upStart <= base + |all|) ==>
                && View().Edge() == Max(old(View()).Edge(), upStart + |upBuf|)
                && forall i: nat :: View().At(i) ==
                     if upStart <= i < upStart + |upBuf| then Some(upBuf[i - upStart]) else old(View()).At(i)
    {
      hide Somes, Tombstones, Seat;
      ghost var s := View();
      PlaceBuffer();
      SeatKeeps(s);
      if s.upBuf != [] && s.upStart <= s.Edge() {
        SeatEdge(s);
        forall i: nat
          ensures Seat(s).At(i) ==
                  if s.upStart <= i < s.upStart + |s.upBuf| then Some(s.upBuf[i - s.upStart]) else s.At(i)
        {
          SeatPlaces(s, i);
        }
      }
    }

    /** Prepend, or splice into the span. */
    method PlaceBuffer()
      modifies this`all, this`base
      ensures View() == Seat(old(View()))
    {
      hide Somes, Tombstones;
      var n := |upBuf|;
      var lo := upStart;
      var hi := lo + n;
      var rel := lo - base;
      if rel <= 0 {
        var gap := base - hi;
        var ts := Tombstones(if gap > 0 then gap else 0);
        var overlap := Min(if gap < 0 then -gap else 0, |all|);
        all := Somes(upBuf) + ts + all[overlap..];
        base := lo;
      } else {
        var head := Min(rel, |all|);
        all := all[..head] + Somes(upBuf) + all[Min(head + n, |all|)..];
      }
    }

    method LandBuffer()
      requires upBuf != []
      modifies this`all, this`base, this`upBuf, this`tops
      ensures View() == Landed(old(View()))
    {
      hide WindowSpec.PushTop, Seat;
      var lastKeyAbove := upBuf[|upBuf| - 1].key;
      var hi := upStart + |upBuf|;
      SeatBuffer();
      SeatKeeps(old(View()));
      upBuf := [];
      PushTop(lastKeyAbove, hi);
    }

    method CloseClimb()
      modifies this`needUp, this`upHit, this`upScanned
      ensures View() == old(View()).(needUp := false, upHit := false, upScanned := 0)
    {
      needUp := false;
      upHit := false;
      upScanned := 0;
    }

    method SettleUp(safe: nat) returns (n: nat)
      modifies this
      ensures View() == WindowSpec.SettleUp(old(View()), tune, safe)
      ensures n == |old(upBuf)|
    {
      hide Landed, Held, WindowSpec.TrimBottom;
      n := |upBuf|;
      if !needUp && n == 0 {
        return;
      }
      if n > 0 {
        LandBuffer();
        TrimBottom(safe);
        rows := Held(all);
      }
      CloseClimb();
    }

    // ---------- demand ----------

    /** The end of every render: arms at most one fetch and names it. */
    method CheckNeed(absTop: real, absBot: real, backoff: bool) returns (d: Demand)
      requires 0.0 <= absTop <= absBot
      modifies this`needUp, this`needDown, this`upScanned, this`winTarget
      ensures d == Need(old(View()), tune, absTop, absBot, backoff)
      ensures View() == Raise(old(View()), tune, d)
      ensures var s := old(View());
              && (d.WantUp? <==> Resting(s, backoff) && Owes(s, tune, absTop, absBot))
              && (d == WantDown <==>
                  && Resting(s, backoff) && !Owes(s, tune, absTop, absBot)
                  && absBot + tune.prefetch as real >= s.Edge() as real
                  && (s.streamDone ==> s.universe.Some? && s.Edge() < s.universe.value))
    {
      hide Owes;
      NeedExact(View(), tune, absTop, absBot, backoff);
      if !streaming || needDown || needUp || backoff {
        return Nothing;
      }
      var reach := absTop - tune.prefetch as real;
      var relTop := Floor(if reach > 0.0 then reach else 0.0) - base;
      var relBot := Floor(absBot) - base;
      var miss := relTop < 0;
      if !miss {
        var i := relTop;
        while i <= Min(|all| - 1, relBot) && !miss
          invariant relTop <= i
          invariant !miss ==> forall k | relTop <= k < i && k <= relBot && k < |all| :: all[k].Some?
          invariant miss ==> exists k | 0 <= k < |all| :: relTop <= k <= relBot && all[k] == None
          decreases |all| - i
        {
          if all[i] == None {
            miss := true;
          }
          i := i + 1;
        }
      }
      if miss {
        needUp := true;
        upScanned := 0;
        var cp := FindTopBelow(Floor(absTop));
        return WantUp(cp);
      }
      var heldBot := base + |all|;
      if !(streamDone && (universe.None? || heldBot >= universe.value))
         && absBot + tune.prefetch as real >= heldBot as real {
        FireDown();
        return WantDown;
      }
      return Nothing;
    }

    // ---------- the host's page handlers ----------

    method OnDownPage(page: seq<Row>, done: bool, safe: nat)
      modifies this
      ensures View() == DownPage(old(View()), tune, page, done, safe)
    {
      var acc := AppendStreamRows(page, safe);
      if done {
        assert page[|page|..] == [];
        if |acc| < |page| {
          AppendRows(page[|acc|..]);
        } else {
          assert all[..|all|] + Somes([]) == all && rows + [] == rows;
        }
        SettleDown(true);
      } else if base + |all| >= winTarget {
        SettleDown(false);
      }
    }

    method OnUpPage(page: seq<Row>, done: bool, at: nat, safe: nat)
      modifies this
      ensures View() == UpPage(old(View()), tune, page, done, at, safe)
    {
      var _ := AppendBackRows(page, done, at);
      var full := BackfillDone();
      if done || full {
        var _ := SettleUp(safe);
      }
    }
  }

  lemma {:induction false} SomesConcat(a: seq<Row>, b: seq<Row>)
    ensures Somes(a + b) == Somes(a) + Somes(b)
  {
    if a == [] {
      assert a + b == b;
    } else {
      assert (a + b)[1..] == a[1..] + b;
      SomesConcat(a[1..], b);
    }
  }
}
