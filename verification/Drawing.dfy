/** Windowed drawing: listing rows compress into slots by a stride, and a pool of
    recycled rows draws the slots the viewport can see. */
module Drawing {
  import opened Basics
  import opened Listing
  import opened WindowSpec
  import opened WindowSlices

  const ROW_H := 28
  const OVERSCAN := 8

  /** A pooled row: parked, or placed at a pixel offset with the model it shows
      (None is the blank placeholder). */
  datatype PoolRow = Parked | Placed(top: int, model: Cell)

  function CeilDiv(a: nat, b: nat): nat
    requires b > 0
  {
    (a + b - 1) / b
  }

  /** The stride that keeps the canvas inside its pixel ceiling. */
  function Stride(extent: nat, cap: nat): nat
    requires cap > 0
  {
    Max(1, CeilDiv(extent, cap))
  }

  function First(scrollTop: real): nat
    requires scrollTop >= 0.0
  {
    Max(0, (scrollTop / ROW_H as real).Floor - OVERSCAN)
  }

  function Ceil(x: real): int {
    -(-x).Floor
  }

  function Last(scrollTop: real, height: real, slots: nat): int {
    Min(slots - 1, Ceil((scrollTop + height) / ROW_H as real) + OVERSCAN)
  }

  lemma {:induction false} CeilDivBounds(a: nat, b: nat)
    requires b > 0
    ensures a <= CeilDiv(a, b) * b < a + b
  {
    var q := CeilDiv(a, b);
    assert a + b - 1 == b * q + (a + b - 1) % b;
  }

  lemma {:induction false} MulLe(a: nat, b: nat, c: nat)
    requires a <= b
    ensures a * c <= b * c
  {
  }

  /** However large the extent, the slots never outgrow the cap. */
  lemma {:induction false} SlotsWithinCap(extent: nat, cap: nat)
    requires cap > 0
    ensures Stride(extent, cap) > 0
    ensures CeilDiv(extent, Stride(extent, cap)) <= cap
  {
    var stride := Stride(extent, cap);
    var slots := CeilDiv(extent, stride);
    CeilDivBounds(extent, cap);
    CeilDivBounds(extent, stride);
    MulLe(CeilDiv(extent, cap), stride, cap);
    assert (cap + 1) * stride == cap * stride + stride;
    if slots > cap {
      MulLe(cap + 1, slots, stride);
    }
  }

  /** The stride is the least that fits the cap: 1 exactly when the extent does. */
  lemma {:induction false} StrideLeast(extent: nat, cap: nat, k: nat)
    requires cap > 0 && 0 < k
    ensures Stride(extent, cap) == 1 <==> extent <= cap
    ensures CeilDiv(extent, k) <= cap <==> Stride(extent, cap) <= k
  {
    hide CeilDiv;
    FitsWhen(extent, cap, k);
    FitsWhen(extent, 1, cap);
    FitsWhen(extent, k, cap);
    Commutes(cap, k);
    assert 1 * cap == cap;
  }

  lemma {:induction false} Commutes(a: nat, b: nat)
    ensures a * b == b * a
  {
  }

  /** Strides of a fit n slots exactly when n slots of that stride hold the extent. */
  lemma {:induction false} FitsWhen(extent: nat, n: nat, k: nat)
    requires n > 0 && k > 0
    ensures CeilDiv(extent, k) <= n <==> extent <= n * k
  {
    CeilDivBounds(extent, k);
    var q := CeilDiv(extent, k);
    if q <= n {
      MulLe(q, n, k);
    } else {
      MulLe(n + 1, q, k);
      assert (n + 1) * k == n * k + k;
    }
  }

  /** Every slot spells a listing index inside the extent, and every listing
      index has its slot: the one that holds its stride. */
  lemma {:induction false} SlotsCoverExtent(extent: nat, stride: nat, slot: nat, row: nat)
    requires stride > 0
    ensures slot < CeilDiv(extent, stride) ==> slot * stride < extent
    ensures row < extent ==> row / stride < CeilDiv(extent, stride)
    ensures row < extent ==> row / stride * stride <= row < (row / stride + 1) * stride
  {
    hide CeilDiv;
    var slots := CeilDiv(extent, stride);
    CeilDivBounds(extent, stride);
    if slot < slots {
      MulLe(slot + 1, slots, stride);
      assert (slot + 1) * stride == slot * stride + stride;
    }
    if row < extent {
      var q := row / stride;
      assert row == stride * q + row % stride;
      assert (q + 1) * stride == q * stride + stride;
      if q >= slots {
        MulLe(slots, q, stride);
      }
    }
  }

  /** A slot the viewport touches lies between the first and the last drawn. */
  lemma {:induction false} TouchedIsDrawn(scrollTop: real, height: real, slots: nat, slot: nat)
    requires scrollTop >= 0.0 && height >= 0.0 && slot < slots
    requires (slot * ROW_H) as real < scrollTop + height && scrollTop < ((slot + 1) * ROW_H) as real
    ensures First(scrollTop) <= slot <= Last(scrollTop, height, slots)
  {
    var at, bottom := scrollTop / 28.0, (scrollTop + height) / 28.0;
    assert at * 28.0 == scrollTop && bottom * 28.0 == scrollTop + height;
    assert at < (slot + 1) as real;
    assert (slot as real) < bottom;
  }

  /** And the drawn slots are just those within eight rows, and the part of a row, of
      the view. */
  lemma {:induction false} DrawnExact(scrollTop: real, height: real, slots: nat, slot: nat)
    requires scrollTop >= 0.0 && height >= 0.0
    ensures First(scrollTop) <= slot <= Last(scrollTop, height, slots) <==>
            && slot < slots
            && scrollTop < ((slot + OVERSCAN + 1) * ROW_H) as real
            && ((slot - OVERSCAN - 1) * ROW_H) as real < scrollTop + height
  {
    var at, bottom := scrollTop / 28.0, (scrollTop + height) / 28.0;
    assert at * 28.0 == scrollTop && bottom * 28.0 == scrollTop + height;
    assert First(scrollTop) <= slot <==> at < (slot + 9) as real;
    assert Ceil(bottom) + 8 >= slot <==> (slot - 9) as real < bottom;
  }

  /** Where the viewport's top edge lies in listing space. */
  function AbsTop(scrollTop: real, stride: nat): real {
    scrollTop / ROW_H as real * stride as real
  }

  /** The browser clamps the scroll to the canvas and what stands beside its slots
      (`extra`: the liveness row, the parent row); in a view that has a row's height
      left beside those, the top edge lies inside the extent at every stride. */
  lemma {:induction false} ViewStartsInside(scrollTop: real, height: real, extra: real, extent: nat, stride: nat)
    requires stride > 0 && scrollTop >= 0.0 && extra + ROW_H as real <= height
    requires scrollTop == 0.0 || scrollTop + height <= (CeilDiv(extent, stride) * ROW_H) as real + extra
    ensures 0.0 <= AbsTop(scrollTop, stride)
    ensures AbsTop(scrollTop, stride) == 0.0 || AbsTop(scrollTop, stride) < extent as real
  {
    if scrollTop > 0.0 {
      var slots := CeilDiv(extent, stride);
      CeilDivBounds(extent, stride);
      var at := scrollTop / ROW_H as real;
      assert at * 28.0 == scrollTop;
      assert 0.0 < at <= (slots - 1) as real;
      MulReal(at, (slots - 1) as real, stride as real);
      assert (slots - 1) * stride == slots * stride - stride;
    }
  }

  lemma {:induction false} MulReal(a: real, b: real, c: real)
    requires 0.0 <= a <= b && c >= 0.0
    ensures 0.0 <= a * c <= b * c
  {
  }

  /** What the pooled row i draws when slots first..last are on screen. */
  function Paint(s: State, stride: nat, first: nat, last: int, i: nat): PoolRow {
    if first + i <= last then Placed((first + i) * ROW_H, s.At((first + i) * stride)) else Parked
  }

  class Canvas {
    var scrollTop: real
    var stride: nat
    var pool: seq<PoolRow>

    constructor ()
      ensures scrollTop == 0.0 && stride == 1 && pool == []
    {
      scrollTop, stride, pool := 0.0, 1, [];
    }

    /** A stride change re-anchors the scroll so the viewport keeps its rows. */
    method CalcScale(s: State, t: Tuning)
      requires scrollTop >= 0.0 && stride > 0
      modifies this`stride, this`scrollTop
      ensures stride == Stride(s.Edge(), t.cap) && scrollTop >= 0.0
      ensures s.Edge() <= t.cap ==> stride == 1
      ensures forall k | 0 < k :: CeilDiv(s.Edge(), k) <= t.cap <==> stride <= k
      ensures scrollTop * stride as real == old(scrollTop) * old(stride) as real || scrollTop == old(scrollTop) == 0.0
    {
      var prev := stride;
      var next := Max(1, CeilDiv(s.Edge(), t.cap));
      forall k | 0 < k
        ensures CeilDiv(s.Edge(), k) <= t.cap <==> next <= k
      {
        StrideLeast(s.Edge(), t.cap, k);
      }
      StrideLeast(s.Edge(), t.cap, 1);
      stride := next;
      if next != prev && scrollTop > 0.0 {
        var anchored := ((scrollTop / 28.0) * prev as real / next as real) * 28.0;
        assert anchored * next as real == scrollTop * prev as real && anchored >= 0.0 by {
          Reanchor(scrollTop, prev as real, next as real);
        }
        scrollTop := anchored;
      }
    }

    /** One recycled row per slot from the first to the last, every other row of
        the pool parked. */
    method DrawPool(s: State, first: nat, last: int)
      requires stride > 0
      modifies this`pool
      ensures |pool| == Max(|old(pool)|, last - first + 1)
      ensures forall i | 0 <= i < |pool| :: pool[i] == Paint(s, stride, first, last, i)
    {
      var rows := pool;
      while |rows| < last - first + 1
        invariant |pool| <= |rows| <= Max(|pool|, last - first + 1)
      {
        rows := rows + [Parked];
      }
      var i := 0;
      while i < |rows|
        invariant 0 <= i <= |rows| && |rows| == Max(|pool|, last - first + 1)
        invariant forall k | 0 <= k < i :: rows[k] == Paint(s, stride, first, last, k)
      {
        var slot := first + i;
        if slot > last {
          rows := rows[i := Parked];
        } else {
          var rel := slot * stride - s.base;
          rows := rows[i := Placed(slot * ROW_H, if 0 <= rel < |s.all| then s.all[rel] else None)];
        }
        i := i + 1;
      }
      pool := rows;
    }

    method Render(s: State, t: Tuning, height: real)
      requires scrollTop >= 0.0 && stride > 0 && height >= 0.0
      modifies this
      ensures stride == Stride(s.Edge(), t.cap) && scrollTop >= 0.0
      ensures s.Edge() <= t.cap ==> stride == 1
      ensures Drawn(pool, s, scrollTop, height, stride)
    {
      CalcScale(s, t);
      var slots := CeilDiv(s.Edge(), stride);
      DrawPool(s, First(scrollTop), Last(scrollTop, height, slots));
    }
  }

  lemma {:induction false} Reanchor(x: real, p: real, n: real)
    requires x > 0.0 && p > 0.0 && n > 0.0
    ensures ((x / 28.0) * p / n) * 28.0 * n == x * p && ((x / 28.0) * p / n) * 28.0 >= 0.0
  {
    var y := x / 28.0;
    assert y * 28.0 == x;
    assert y > 0.0;
    var z := y * p / n;
    assert z * n == y * p;
    assert y * p > 0.0;
    assert z >= 0.0;
    assert z * 28.0 * n == (z * n) * 28.0;
    assert y * p * 28.0 == x * p;
  }

  /** What Render leaves in the pool. */
  ghost predicate Drawn(pool: seq<PoolRow>, s: State, scrollTop: real, height: real, stride: nat)
    requires scrollTop >= 0.0 && stride > 0
  {
    var first := First(scrollTop);
    var last := Last(scrollTop, height, CeilDiv(s.Edge(), stride));
    && |pool| >= last - first + 1
    && forall i | 0 <= i < |pool| ::
         pool[i] == Paint(s, stride, first, last, i)
  }

  /** Windowed drawing refines drawing the whole listing: a slot the viewport
      touches is drawn by exactly one pooled row, and that row shows the slot's
      own listing row or a blank. */
  lemma {:induction false} ViewportRefinesListing(
    pool: seq<PoolRow>, s: State, L: seq<Row>, scrollTop: real, height: real, stride: nat, slot: nat)
    requires scrollTop >= 0.0 && height >= 0.0 && stride > 0
    requires Drawn(pool, s, scrollTop, height, stride) && Slots(s.all, s.base, L)
    requires slot < CeilDiv(s.Edge(), stride)
    requires (slot * ROW_H) as real < scrollTop + height && scrollTop < ((slot + 1) * ROW_H) as real
    ensures slot * stride < |L|
    ensures var i := slot - First(scrollTop);
            && 0 <= i < |pool|
            && pool[i].Placed? && pool[i].top == slot * ROW_H
            && pool[i].model == s.At(slot * stride)
            && (pool[i].model == None || pool[i].model == Some(L[slot * stride]))
            && forall j | 0 <= j < |pool| && pool[j].Placed? :: pool[j].top == slot * ROW_H ==> j == i
  {
    TouchedIsDrawn(scrollTop, height, CeilDiv(s.Edge(), stride), slot);
    SlotsCoverExtent(s.Edge(), stride, slot, 0);
    var k := slot * stride;
    if s.base <= k {
      assert SlotTrue(s.all, s.base, L, k - s.base);
    }
  }

  /** An extent within the cap is drawn row for row: the one pooled row at a slot's
      offset shows what the window holds at that very index, its own listing row
      or, where it owes one, a blank. */
  lemma {:induction false} WithinCapDrawsEachRow(
    pool: seq<PoolRow>, s: State, t: Tuning, L: seq<Row>, scrollTop: real, height: real, row: nat)
    requires scrollTop >= 0.0 && height >= 0.0 && s.Edge() <= t.cap && row < s.Edge()
    requires Stride(s.Edge(), t.cap) > 0 && Drawn(pool, s, scrollTop, height, Stride(s.Edge(), t.cap))
    requires Slots(s.all, s.base, L)
    requires (row * ROW_H) as real < scrollTop + height && scrollTop < ((row + 1) * ROW_H) as real
    ensures var i := row - First(scrollTop);
            && 0 <= i < |pool| && pool[i] == Placed(row * ROW_H, s.At(row))
            && (s.At(row) == None || s.At(row) == Some(L[row]))
            && forall j | 0 <= j < |pool| && pool[j].Placed? :: pool[j].top == row * ROW_H ==> j == i
  {
    hide Drawn, Slots, Stride;
    StrideLeast(s.Edge(), t.cap, 1);
    assert CeilDiv(s.Edge(), 1) == s.Edge();
    ViewportRefinesListing(pool, s, L, scrollTop, height, 1, row);
  }
}
