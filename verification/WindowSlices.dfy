/** Lemmas about held slices: mirrors, bands, anchors, and the checkpoint ring. */
module WindowSlices {
  import opened Basics
  import opened Listing
  import opened WindowSpec

  predicate SlotTrue(all: seq<Cell>, base: nat, L: seq<Row>, i: nat)
    requires base + |all| <= |L| && i < |all|
  {
    all[i] == None || all[i] == Some(L[base + i])
  }

  /** The slot law: a held slot shows exactly its own listing row. */
  ghost predicate Slots(all: seq<Cell>, base: nat, L: seq<Row>) {
    && base + |all| <= |L|
    && forall i | 0 <= i < |all| :: SlotTrue(all, base, L, i)
  }

  /** A start-after key that lists exactly the rows from its index. */
  ghost predicate IsBinding(L: seq<Row>, cp: Checkpoint) {
    cp.index <= |L| && ListAfter(L, cp.after) == L[cp.index..]
  }

  ghost predicate Ring(tops: seq<Checkpoint>, L: seq<Row>) {
    && 1 <= |tops| <= RING_MAX
    && tops[0].index == 0
    && forall cp | cp in tops :: IsBinding(L, cp)
  }

  // ---------- cells ----------

  lemma {:induction false} SomesAt(rows: seq<Row>, i: nat)
    requires i < |rows|
    ensures Somes(rows)[i] == Some(rows[i])
  {
    if i > 0 { SomesAt(rows[1..], i - 1); }
  }

  lemma {:induction false} TombstonesAt(n: nat, i: nat)
    requires i < n
    ensures Tombstones(n)[i] == None
  {
    if i > 0 { TombstonesAt(n - 1, i - 1); }
  }

  lemma {:induction false} BandAt(all: seq<Cell>, i: nat)
    requires |all| - Band(all) <= i < |all|
    ensures all[i] == None
  {
    if i < |all| - 1 { BandAt(all[..|all| - 1], i); }
  }

  // ---------- held rows ----------

  lemma {:induction false} HeldConcat(a: seq<Cell>, b: seq<Cell>)
    ensures Held(a + b) == Held(a) + Held(b)
  {
    if a == [] {
      assert a + b == b;
    } else {
      assert (a + b)[1..] == a[1..] + b;
      HeldConcat(a[1..], b);
    }
  }

  lemma {:induction false} HeldSomes(rows: seq<Row>)
    ensures Held(Somes(rows)) == rows
  {
    if rows != [] {
      HeldSomes(rows[1..]);
      assert Somes(rows)[1..] == Somes(rows[1..]);
    }
  }

  lemma {:induction false} HeldNones(all: seq<Cell>)
    requires forall i | 0 <= i < |all| :: all[i] == None
    ensures Held(all) == []
  {
    if all != [] { HeldNones(all[1..]); }
  }

  lemma {:induction false} WithoutConcat(a: seq<Row>, b: seq<Row>, dropped: seq<Cell>)
    ensures Without(a + b, dropped) == Without(a, dropped) + Without(b, dropped)
  {
    if a == [] {
      assert a + b == b;
    } else {
      assert (a + b)[1..] == a[1..] + b;
      WithoutConcat(a[1..], b, dropped);
    }
  }

  lemma {:induction false} WithoutAll(all: seq<Cell>, dropped: seq<Cell>)
    requires forall c | c in all :: c in dropped
    ensures Without(Held(all), dropped) == []
  {
    if all != [] {
      WithoutAll(all[1..], dropped);
      if all[0].Some? {
        assert all[0] in all;
        assert Held(all) == [all[0].value] + Held(all[1..]);
      } else {
        assert Held(all) == Held(all[1..]);
      }
    }
  }

  lemma {:induction false} WithoutNone(all: seq<Cell>, dropped: seq<Cell>)
    requires forall i | 0 <= i < |all| :: all[i].Some? ==> all[i] !in dropped
    ensures Without(Held(all), dropped) == Held(all)
  {
    if all != [] {
      WithoutNone(all[1..], dropped);
      if all[0].Some? {
        assert Held(all) == [all[0].value] + Held(all[1..]);
      } else {
        assert Held(all) == Held(all[1..]);
      }
    }
  }

  lemma {:induction false} SlotsDistinct(all: seq<Cell>, base: nat, L: seq<Row>, i: nat, j: nat)
    requires Ascending(L) && Slots(all, base, L)
    requires i < |all| && j < |all| && all[i].Some? && all[i] == all[j]
    ensures i == j
  {
    assert SlotTrue(all, base, L, i) && SlotTrue(all, base, L, j);
    AscendingDistinct(L, base + i, base + j);
  }

  /** Cutting a slice in two, the mirror drops exactly the cut part's rows. */
  lemma {:induction false} MirrorCut(all: seq<Cell>, base: nat, L: seq<Row>, k: nat)
    requires Ascending(L) && Slots(all, base, L) && k <= |all|
    ensures Without(Held(all), all[..k]) == Held(all[k..])
    ensures Without(Held(all), all[k..]) == Held(all[..k])
  {
    var a, b := all[..k], all[k..];
    assert all == a + b;
    HeldConcat(a, b);
    forall i | 0 <= i < |b| && b[i].Some?
      ensures b[i] !in a
    {
      if b[i] in a {
        var j :| 0 <= j < |a| && a[j] == b[i];
        SlotsDistinct(all, base, L, k + i, j);
      }
    }
    WithoutConcat(Held(a), Held(b), a);
    WithoutConcat(Held(a), Held(b), b);
    WithoutAll(a, a);
    WithoutAll(b, b);
    WithoutNone(b, a);
    WithoutNone(a, b);
  }

  // ---------- the anchor of the downward walk ----------

  /** Some row is held, or the window stands at the listing's head. */
  predicate Anchored(s: State) {
    s.base == 0 || Band(s.all) < |s.all|
  }

  lemma {:induction false} LastKeyIs(all: seq<Cell>, base: nat, L: seq<Row>)
    requires Ascending(L) && Slots(all, base, L)
    ensures LastKey(all) == if Band(all) < |all| then L[base + |all| - Band(all) - 1].key else ""
  {
    if all != [] {
      var front := all[..|all| - 1];
      var last := |all| - 1;
      SlotsCut(all, base, L, last);
      LastKeyIs(front, base, L);
      if all[last].Some? {
        assert SlotTrue(all, base, L, last);
        if Band(front) < |front| {
          Ordered(L, base + last - Band(front) - 1, base + last);
        }
      }
    }
  }

  /** Resuming past lastKey picks up at the first owed row, exactly when the
      window is anchored: a keyless window below the head restarts at row 0. */
  lemma {:induction false} ResumeExact(s: State, L: seq<Row>)
    requires Ascending(L) && Slots(s.all, s.base, L)
    ensures |L| - |ListAfter(L, LastKey(s.all))| == s.Edge() - Band(s.all) <==> Anchored(s)
    ensures |L| - |ListAfter(L, LastKey(s.all))| == if Band(s.all) < |s.all| then s.Edge() - Band(s.all) else 0
  {
    LastKeyIs(s.all, s.base, L);
    var e := if Band(s.all) < |s.all| then s.Edge() - Band(s.all) else 0;
    KeyBeforeLists(L, e);
  }

  // ---------- the checkpoint ring ----------

  lemma {:induction false} ThinEnds(tops: seq<Checkpoint>, i: int)
    requires i < |tops| - 1 && tops != []
    ensures |ThinFrom(tops, i)| == |tops| - (if i < 1 then 0 else (i + 1) / 2) >= 1
    ensures ThinFrom(tops, i)[0] == tops[0]
    ensures ThinFrom(tops, i)[|ThinFrom(tops, i)| - 1] == tops[|tops| - 1]
    decreases i
  {
    if i >= 1 { ThinEnds(RemoveAt(tops, i), i - 2); }
  }

  lemma {:induction false} ThinSubset(tops: seq<Checkpoint>, i: int, cp: Checkpoint)
    requires i < |tops| && cp in ThinFrom(tops, i)
    ensures cp in tops
    decreases i
  {
    if i >= 1 { ThinSubset(RemoveAt(tops, i), i - 2, cp); }
  }

  /** Thinning spares everything past i and every second entry before it. */
  lemma {:induction false} ThinSpares(tops: seq<Checkpoint>, i: int, j: nat)
    requires i < |tops| && j < |tops| && (j > i || j == 0 || (i - j) % 2 == 1)
    ensures tops[j] in ThinFrom(tops, i)
    decreases i
  {
    if i >= 1 {
      var cut := RemoveAt(tops, i);
      var k := if j > i then j - 1 else j;
      assert tops[j] == cut[k];
      ThinSpares(cut, i - 2, k);
    }
  }

  /** A push keeps the ring: bounded, its index-0 entry alive, every entry true. */
  lemma {:induction false} PushTopKeepsRing(tops: seq<Checkpoint>, L: seq<Row>, after: string, index: nat)
    requires Ring(tops, L) && IsBinding(L, Checkpoint(after, index))
    ensures Ring(PushTop(tops, after, index), L)
  {
    var pushed := tops + [Checkpoint(after, index)];
    if |pushed| > RING_MAX {
      var i := |pushed| / 2 - 1;
      ThinEnds(pushed, i);
      forall cp | cp in ThinFrom(pushed, i)
        ensures IsBinding(L, cp)
      {
        ThinSubset(pushed, i, cp);
      }
    }
  }

  /** The pushed checkpoint itself always stands, whatever the thinning dropped. */
  lemma {:induction false} PushTopSeats(tops: seq<Checkpoint>, after: string, index: nat)
    requires |tops| <= RING_MAX
    ensures Checkpoint(after, index) in PushTop(tops, after, index)
  {
    var pushed := tops + [Checkpoint(after, index)];
    if |pushed| > RING_MAX {
      ThinEnds(pushed, |pushed| / 2 - 1);
    }
  }

  /** It stands last, and the ring stays bounded. */
  lemma {:induction false} PushTopLast(tops: seq<Checkpoint>, after: string, index: nat)
    requires |tops| <= RING_MAX
    ensures var r := PushTop(tops, after, index);
            0 < |r| <= RING_MAX && r[|r| - 1] == Checkpoint(after, index)
  {
    var pushed := tops + [Checkpoint(after, index)];
    if |pushed| > RING_MAX {
      ThinEnds(pushed, |pushed| / 2 - 1);
    }
  }

  /** A push spares the checkpoint pushed right before it at another index. */
  lemma {:induction false} PushTopSparesLast(tops: seq<Checkpoint>, after: string, index: nat)
    requires 0 < |tops| <= RING_MAX && tops[|tops| - 1].index != index
    ensures tops[|tops| - 1] in PushTop(tops, after, index)
  {
    hide PushTop;
    if |tops| == RING_MAX {
      PushTopKeepsSpread(tops, after, index, |tops| - 1);
    } else {
      PushTopKeepsAll(tops, after, index, tops[|tops| - 1]);
    }
  }

  lemma {:induction false} FullRingThins(tops: seq<Checkpoint>, after: string, index: nat)
    requires |tops| == RING_MAX && tops[|tops| - 1].index != index
    ensures PushTop(tops, after, index) == ThinFrom(tops + [Checkpoint(after, index)], 95)
    ensures |PushTop(tops, after, index)| == 145
  {
    hide ThinFrom;
    var pushed := tops + [Checkpoint(after, index)];
    assert |pushed| / 2 - 1 == 95;
    ThinEnds(pushed, 95);
    assert |ThinFrom(pushed, 95)| == 145;
  }

  lemma {:induction false} FullRingSpares(tops: seq<Checkpoint>, after: string, index: nat, j: nat)
    requires |tops| == RING_MAX && tops[|tops| - 1].index != index
    requires j < RING_MAX && (j > 95 || (95 - j) % 2 == 1)
    ensures tops[j] in PushTop(tops, after, index)
  {
    var pushed := tops + [Checkpoint(after, index)];
    FullRingThins(tops, after, index);
    assert pushed[j] == tops[j];
    ThinSpares(pushed, 95, j);
  }

  /** The thinning keeps a spread: a full ring loses no entry of its younger
      half, never two neighbours of the older one, and a quarter in all. */
  lemma {:induction false} PushTopKeepsSpread(tops: seq<Checkpoint>, after: string, index: nat, j: nat)
    requires |tops| == RING_MAX && tops[|tops| - 1].index != index && j < RING_MAX
    ensures j >= RING_MAX / 2 ==> tops[j] in PushTop(tops, after, index)
    ensures j + 1 < RING_MAX ==> tops[j] in PushTop(tops, after, index) || tops[j + 1] in PushTop(tops, after, index)
    ensures |PushTop(tops, after, index)| == RING_MAX + 1 - RING_MAX / 4
  {
    FullRingThins(tops, after, index);
    if j > 95 || (95 - j) % 2 == 1 {
      FullRingSpares(tops, after, index, j);
    } else {
      FullRingSpares(tops, after, index, j + 1);
    }
  }

  lemma {:induction false} BestFromTightest(tops: seq<Checkpoint>, index: nat, best: Checkpoint)
    requires best.index <= index
    ensures BestFrom(tops, index, best) == best || BestFrom(tops, index, best) in tops
    ensures best.index <= BestFrom(tops, index, best).index <= index
    ensures forall cp | cp in tops && cp.index <= index :: cp.index <= BestFrom(tops, index, best).index
  {
    if tops != [] {
      BestFromTightest(tops[1..], index, if best.index <= tops[0].index <= index then tops[0] else best);
    }
  }

  /** topBelow answers the tightest stored checkpoint at or below its query. */
  lemma {:induction false} TopBelowTightest(tops: seq<Checkpoint>, L: seq<Row>, index: nat)
    requires Ring(tops, L)
    ensures TopBelow(tops, index) in tops && TopBelow(tops, index).index <= index
    ensures forall cp | cp in tops && cp.index <= index :: cp.index <= TopBelow(tops, index).index
    ensures IsBinding(L, TopBelow(tops, index))
  {
    BestFromTightest(tops, index, tops[0]);
  }

  // ---------- appends and cuts on slices ----------

  // ---------- what a push keeps ----------

  /** Below the bound, or at an index just pushed, nothing is lost: every stored
      checkpoint stays but the youngest, and that one too unless the new one takes
      its index. */
  lemma {:induction false} PushTopKeepsAll(tops: seq<Checkpoint>, after: string, index: nat, cp: Checkpoint)
    requires tops != [] && (|tops| < RING_MAX || tops[|tops| - 1].index == index)
    ensures var last := |tops| - 1;
            cp in PushTop(tops, after, index) <==>
            cp == Checkpoint(after, index) || cp in tops[..last] || (cp == tops[last] && cp.index != index)
  {
    var last := |tops| - 1;
    assert tops == tops[..last] + [tops[last]];
  }

  lemma {:induction false} BestFromThen(tops: seq<Checkpoint>, index: nat, best: Checkpoint, cp: Checkpoint)
    ensures var b := BestFrom(tops, index, best);
            BestFrom(tops + [cp], index, best) == if b.index <= cp.index <= index then cp else b
  {
    if tops == [] {
      assert [] + [cp] == [cp] && [cp][1..] == [];
    } else {
      assert (tops + [cp])[0] == tops[0] && (tops + [cp])[1..] == tops[1..] + [cp];
      BestFromThen(tops[1..], index, if best.index <= tops[0].index <= index then tops[0] else best, cp);
    }
  }

  lemma {:induction false} TopBelowThen(tops: seq<Checkpoint>, q: nat, cp: Checkpoint)
    requires tops != []
    ensures var b := TopBelow(tops, q); TopBelow(tops + [cp], q) == if b.index <= cp.index <= q then cp else b
  {
    hide BestFrom;
    BestFromThen(tops, q, tops[0], cp);
  }

  lemma {:induction false} TopBelowOne(cp: Checkpoint, q: nat)
    ensures TopBelow([cp], q) == cp
  {
    assert [cp][1..] == [];
    assert BestFrom([cp], q, cp) == BestFrom([], q, cp);
  }

  /** So below the bound a push changes the answer to a query exactly when the new
      checkpoint is at or below the query and no stored one is tighter. */
  lemma {:induction false} PushTopAnswers(tops: seq<Checkpoint>, after: string, index: nat, q: nat)
    requires tops != [] && tops[0].index == 0 && (|tops| < RING_MAX || tops[|tops| - 1].index == index)
    ensures var best := TopBelow(tops, q);
            TopBelow(PushTop(tops, after, index), q) ==
            if best.index <= index <= q then Checkpoint(after, index) else best
  {
    hide TopBelow;
    var last := |tops| - 1;
    var cp := Checkpoint(after, index);
    if tops[last].index == index {
      var front := tops[..last];
      if front == [] {
        assert front + [cp] == [cp] && tops == [tops[0]];
        TopBelowOne(cp, q);
        TopBelowOne(tops[0], q);
      } else {
        assert tops == front + [tops[last]];
        TopBelowThen(front, q, cp);
        TopBelowThen(front, q, tops[last]);
      }
    } else {
      TopBelowThen(tops, q, cp);
    }
  }

  /** Rows that start at the first owed slot and cover the band land true. */
  lemma {:induction false} CellsAligned(all: seq<Cell>, base: nat, L: seq<Row>, rows: seq<Row>)
    requires Slots(all, base, L)
    requires var next := base + |all| - Band(all); next + |rows| <= |L| && rows == L[next..next + |rows|]
    requires |rows| >= Band(all)
    ensures var r := AppendCells(all, rows);
            Slots(r, base, L) && |r| == |all| - Band(all) + |rows|
  {
    var n := |all| - Band(all);
    var r := AppendCells(all, rows);
    forall i | 0 <= i < |r|
      ensures SlotTrue(r, base, L, i)
    {
      if i < n {
        assert SlotTrue(all, base, L, i);
      } else {
        SomesAt(rows, i - n);
      }
    }
  }

  lemma {:induction false} AppendHeld(all: seq<Cell>, rows: seq<Row>)
    ensures Held(AppendCells(all, rows)) == Held(all) + rows
  {
    hide Band, Held, Somes;
    var n := |all| - Min(Band(all), |rows|);
    var keep, band := all[..n], all[n..];
    HeldConcat(keep, Somes(rows));
    HeldConcat(keep, band);
    assert all == keep + band;
    HeldSomes(rows);
    forall i | 0 <= i < |band|
      ensures band[i] == None
    {
      BandAt(all, n + i);
    }
    HeldNones(band);
  }

  lemma {:induction false} AppendClosesBand(all: seq<Cell>, rows: seq<Row>)
    requires rows != []
    ensures AppendCells(all, rows) != [] && Band(AppendCells(all, rows)) == 0
  {
    SomesAt(rows, |rows| - 1);
  }

  /** A cut's last real row binds its key to the index right behind it. */
  lemma {:induction false} CutBinds(all: seq<Cell>, base: nat, L: seq<Row>, cut: nat)
    requires Ascending(L) && Slots(all, base, L) && cut <= |all| && Band(all[..cut]) < cut
    ensures var k := cut - Band(all[..cut]);
            all[..cut][k - 1].Some? && IsBinding(L, Checkpoint(all[..cut][k - 1].value.key, base + k))
  {
    var k := cut - Band(all[..cut]);
    assert SlotTrue(all, base, L, k - 1);
    KeyBeforeLists(L, base + k);
  }

  lemma {:induction false} SlotsCut(all: seq<Cell>, base: nat, L: seq<Row>, k: nat)
    requires Slots(all, base, L) && k <= |all|
    ensures Slots(all[k..], base + k, L) && Slots(all[..k], base, L)
  {
    var tail, from := all[k..], base + k;
    forall i | 0 <= i < |tail|
      ensures SlotTrue(tail, from, L, i)
    {
      assert SlotTrue(all, base, L, k + i);
    }
    forall i | 0 <= i < k
      ensures SlotTrue(all[..k], base, L, i)
    {
      assert SlotTrue(all, base, L, i);
    }
  }
}
