/** Where a settled fill lands: the geometry of the three placements, for any
    buffer, and exactly when the seated slots are true. */
module WindowSeat {
  import opened Basics
  import opened Listing
  import opened WindowSpec
  import opened WindowSlices

  /** Everything but the slice, its mirror and its ring stands. */
  ghost predicate SameDemand(a: State, b: State) {
    && a.winTarget == b.winTarget && a.streaming == b.streaming
    && a.streamDone == b.streamDone && a.universe == b.universe
    && a.needDown == b.needDown && a.needUp == b.needUp
    && a.upHit == b.upHit && a.upDone == b.upDone && a.upBuf == b.upBuf
  }

  lemma {:induction false} ConcatAt(a: seq<Cell>, b: seq<Cell>, c: seq<Cell>, k: nat)
    requires k < |a| + |b| + |c|
    ensures (a + b + c)[k] == if k < |a| then a[k] else if k < |a| + |b| then b[k - |a|] else c[k - |a| - |b|]
  {
  }

  lemma {:induction false} PrependedAt(buf: seq<Row>, gap: nat, tail: seq<Cell>, k: nat)
    requires k < |buf| + gap + |tail|
    ensures (Somes(buf) + Tombstones(gap) + tail)[k] ==
            if k < |buf| then Some(buf[k]) else if k < |buf| + gap then None else tail[k - |buf| - gap]
  {
    hide Somes, Tombstones;
    ConcatAt(Somes(buf), Tombstones(gap), tail, k);
    if k < |buf| {
      SomesAt(buf, k);
    } else if k < |buf| + gap {
      TombstonesAt(gap, k - |buf|);
    }
  }

  lemma {:induction false} SplicedAt(all: seq<Cell>, rel: nat, buf: seq<Row>, k: nat)
    requires rel <= |all| && k < Max(|all|, rel + |buf|)
    ensures var r := all[..rel] + Somes(buf) + all[Min(rel + |buf|, |all|)..];
            k < |r| && r[k] == if rel <= k < rel + |buf| then Some(buf[k - rel]) else all[k]
  {
    hide Somes;
    ConcatAt(all[..rel], Somes(buf), all[Min(rel + |buf|, |all|)..], k);
    if rel <= k < rel + |buf| {
      SomesAt(buf, k - rel);
    }
  }

  lemma {:induction false} SeatEdge(s: State)
    requires s.upBuf != [] && s.upStart <= s.Edge()
    ensures Seat(s).Edge() == Max(s.Edge(), s.upStart + |s.upBuf|)
    ensures Seat(s).base == Min(s.base, s.upStart) && Seat(s).all != []
    ensures SameDemand(s, Seat(s)) && Seat(s).tops == s.tops
  {
    hide Somes, Tombstones, Held, Slots;
    if s.upStart <= s.base {
      var gap := s.base - s.upStart - |s.upBuf|;
      assert |Seat(s).all| == |s.upBuf| + Max(gap, 0) + |s.all| - Min(Max(-gap, 0), |s.all|);
    } else {
      var rel := s.upStart - s.base;
      assert |Seat(s).all| == rel + |s.upBuf| + |s.all| - Min(rel + |s.upBuf|, |s.all|);
    }
  }

  /** Only the slice and its anchor change. */
  lemma {:induction false} SeatKeeps(s: State)
    ensures Seat(s) == s.(all := Seat(s).all, base := Seat(s).base)
  {
    hide Somes, Tombstones;
  }

  lemma {:induction false} CellsAbove(all: seq<Cell>, base: nat, buf: seq<Row>, start: nat, k: nat)
    requires start <= base && start + k < Max(base + |all|, start + |buf|)
    ensures var c := SeatCells(all, base, buf, start);
            k < |c| && c[k] ==
            if k < |buf| then Some(buf[k]) else if start + k < base then None else all[start + k - base]
  {
    hide Somes, Tombstones;
    var gap := base - start - |buf|;
    PrependedAt(buf, Max(gap, 0), all[Min(Max(-gap, 0), |all|)..], k);
  }

  lemma {:induction false} SeatAbove(s: State, i: nat)
    requires s.upBuf != [] && s.upStart <= s.base && s.upStart <= i < Max(s.Edge(), s.upStart + |s.upBuf|)
    ensures i - s.upStart < |Seat(s).all|
    ensures Seat(s).all[i - s.upStart] == if i < s.upStart + |s.upBuf| then Some(s.upBuf[i - s.upStart]) else s.At(i)
  {
    hide SeatCells;
    CellsAbove(s.all, s.base, s.upBuf, s.upStart, i - s.upStart);
  }

  lemma {:induction false} SeatInside(s: State, i: nat)
    requires s.upBuf != [] && s.base < s.upStart <= s.Edge() && s.base <= i < Max(s.Edge(), s.upStart + |s.upBuf|)
    ensures i - s.base < |Seat(s).all|
    ensures Seat(s).all[i - s.base] ==
            if s.upStart <= i < s.upStart + |s.upBuf| then Some(s.upBuf[i - s.upStart]) else s.At(i)
  {
    hide Somes, Tombstones;
    SplicedAt(s.all, s.upStart - s.base, s.upBuf, i - s.base);
  }

  /** Slot by slot: the buffer's slots show its rows in order, every other slot
      what it showed. */
  lemma {:induction false} SeatPlaces(s: State, i: nat)
    requires s.upBuf != [] && s.upStart <= s.Edge()
    ensures Seat(s).At(i) == if s.upStart <= i < s.upStart + |s.upBuf| then Some(s.upBuf[i - s.upStart]) else s.At(i)
  {
    hide Seat;
    SeatEdge(s);
    if Seat(s).base <= i < Seat(s).Edge() {
      if s.upStart <= s.base {
        SeatAbove(s, i);
      } else {
        SeatInside(s, i);
      }
    }
  }

  /** The seated slots are true exactly when the buffer is the listing's own run
      from its start. */
  lemma {:induction false} SeatSlotsExact(s: State, L: seq<Row>)
    requires s.upBuf != [] && s.upStart <= s.Edge() && Slots(s.all, s.base, L)
    ensures Slots(Seat(s).all, Seat(s).base, L) <==>
            s.upStart + |s.upBuf| <= |L| && s.upBuf == L[s.upStart..s.upStart + |s.upBuf|]
  {
    hide Seat;
    SeatEdge(s);
    if s.upStart + |s.upBuf| <= |L| && s.upBuf == L[s.upStart..s.upStart + |s.upBuf|] {
      TrueBufferSeats(s, L);
    }
    if Slots(Seat(s).all, Seat(s).base, L) {
      SeatedTells(s, L);
    }
  }

  lemma {:induction false} TrueBufferSeats(s: State, L: seq<Row>)
    requires s.upBuf != [] && s.upStart <= s.Edge() && Slots(s.all, s.base, L)
    requires s.upStart + |s.upBuf| <= |L| && s.upBuf == L[s.upStart..s.upStart + |s.upBuf|]
    ensures Slots(Seat(s).all, Seat(s).base, L)
  {
    hide Seat;
    var r := Seat(s);
    SeatEdge(s);
    forall j | 0 <= j < |r.all|
      ensures SlotTrue(r.all, r.base, L, j)
    {
      var i := r.base + j;
      SeatPlaces(s, i);
      if s.base <= i < s.Edge() {
        assert SlotTrue(s.all, s.base, L, i - s.base);
      }
    }
  }

  lemma {:induction false} SeatedTells(s: State, L: seq<Row>)
    requires s.upBuf != [] && s.upStart <= s.Edge() && Slots(Seat(s).all, Seat(s).base, L)
    ensures s.upStart + |s.upBuf| <= |L| && s.upBuf == L[s.upStart..s.upStart + |s.upBuf|]
  {
    hide Seat;
    var r := Seat(s);
    SeatEdge(s);
    forall k | 0 <= k < |s.upBuf|
      ensures s.upBuf[k] == L[s.upStart + k]
    {
      SeatPlaces(s, s.upStart + k);
      assert SlotTrue(r.all, r.base, L, s.upStart + k - r.base);
    }
  }
}
