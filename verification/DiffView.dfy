/** What renderDiff shows of its row list: three lines of context around every
    change, one marker for every unchanged run in between. */
module DiffView {
  import opened Basics
  import opened Scripts
  import opened LineDiff

  datatype Item = Shown(r: DRow) | Gap

  predicate IsChange(r: DRow) {
    !r.op.Ctx?
  }

  predicate ChangeWithin(full: seq<DRow>, x: int, k: int) {
    0 <= x < |full| && IsChange(full[x]) && x - CONTEXT <= k <= x + CONTEXT
  }

  /** Row k lies within three positions of a change among the first n rows. */
  predicate Near(full: seq<DRow>, n: nat, k: int) {
    exists x | 0 <= x < n :: ChangeWithin(full, x, k)
  }

  /** The end of the hidden run that starts at k. */
  function RunEnd(keep: seq<bool>, k: nat): (e: nat)
    requires k <= |keep|
    ensures k <= e <= |keep| && (k < |keep| && !keep[k] ==> e > k)
    ensures e < |keep| ==> keep[e]
    ensures forall x | k <= x < e :: !keep[x]
    decreases |keep| - k
  {
    if k == |keep| || keep[k] then k else RunEnd(keep, k + 1)
  }

  /** Kept rows as they are, each maximal hidden run as one marker. */
  function Collapsed(full: seq<DRow>, keep: seq<bool>, k: nat): seq<Item>
    requires |keep| == |full| && k <= |full|
    decreases |full| - k
  {
    if k == |full| then []
    else if keep[k] then [Shown(full[k])] + Collapsed(full, keep, k + 1)
    else [Gap] + Collapsed(full, keep, RunEnd(keep, k))
  }

  /** The maximal hidden runs themselves, in order. */
  function HiddenRuns(full: seq<DRow>, keep: seq<bool>, k: nat): seq<seq<DRow>>
    requires |keep| == |full| && k <= |full|
    decreases |full| - k
  {
    if k == |full| then []
    else if keep[k] then HiddenRuns(full, keep, k + 1)
    else [full[k..RunEnd(keep, k)]] + HiddenRuns(full, keep, RunEnd(keep, k))
  }

  /** The kept rows, in order. */
  function KeptRows(full: seq<DRow>, keep: seq<bool>, k: nat): seq<DRow>
    requires |keep| == |full| && k <= |full|
    decreases |full| - k
  {
    if k == |full| then []
    else (if keep[k] then [full[k]] else []) + KeptRows(full, keep, k + 1)
  }

  function StripGaps(items: seq<Item>): seq<DRow> {
    if items == [] then []
    else (if items[0].Shown? then [items[0].r] else []) + StripGaps(items[1..])
  }

  function Gaps(items: seq<Item>): nat {
    if items == [] then 0 else (if items[0].Gap? then 1 else 0) + Gaps(items[1..])
  }

  /** The items with each marker replaced, in turn, by a run of rows. */
  function Expand(items: seq<Item>, runs: seq<seq<DRow>>): seq<DRow>
    requires Gaps(items) == |runs|
  {
    if items == [] then []
    else if items[0].Shown? then [items[0].r] + Expand(items[1..], runs)
    else runs[0] + Expand(items[1..], runs[1..])
  }

  // ---------- the loops ----------

  method MarkKeep(full: seq<DRow>) returns (keep: array<bool>)
    ensures fresh(keep) && keep.Length == |full|
    ensures forall k | 0 <= k < |full| :: keep[k] == Near(full, |full|, k)
  {
    keep := new bool[|full|](_ => false);
    var idx := 0;
    while idx < |full|
      invariant 0 <= idx <= |full|
      invariant forall k | 0 <= k < |full| :: keep[k] == Near(full, idx, k)
    {
      if IsChange(full[idx]) {
        var k := Max(0, idx - CONTEXT);
        var stop := Min(|full| - 1, idx + CONTEXT);
        while k <= stop
          invariant Max(0, idx - CONTEXT) <= k <= stop + 1
          invariant forall x | 0 <= x < |full| ::
                      keep[x] == (Near(full, idx, x) || (idx - CONTEXT <= x < k))
        {
          keep[k] := true;
          k := k + 1;
        }
      }
      forall k | 0 <= k < |full|
        ensures keep[k] == Near(full, idx + 1, k)
      {
        if IsChange(full[idx]) && idx - CONTEXT <= k <= idx + CONTEXT {
          assert ChangeWithin(full, idx, k);
        }
      }
      idx := idx + 1;
    }
  }

  lemma {:induction false} CollapsedAt(full: seq<DRow>, keep: seq<bool>, k: nat)
    requires |keep| == |full| && k < |full|
    ensures keep[k] ==> RunEnd(keep, k) == k
    ensures keep[k] ==> Collapsed(full, keep, k) == [Shown(full[k])] + Collapsed(full, keep, k + 1)
    ensures !keep[k] ==> RunEnd(keep, k) == RunEnd(keep, k + 1)
                         && Collapsed(full, keep, k) == [Gap] + Collapsed(full, keep, RunEnd(keep, k + 1))
  {
  }

  lemma {:induction false} CollapsedEnd(full: seq<DRow>, keep: seq<bool>)
    requires |keep| == |full|
    ensures Collapsed(full, keep, |full|) == []
  {
  }

  method Collapse(full: seq<DRow>, keep: seq<bool>) returns (shown: seq<Item>)
    requires |keep| == |full|
    ensures shown == Collapsed(full, keep, 0)
  {
    hide Collapsed, RunEnd;
    shown := [];
    var inGap := false;
    var k := 0;
    while k < |full|
      invariant 0 <= k <= |full|
      invariant Collapsed(full, keep, 0) == shown + Collapsed(full, keep, if inGap then RunEnd(keep, k) else k)
    {
      CollapsedAt(full, keep, k);
      if keep[k] {
        shown := shown + [Shown(full[k])];
        inGap := false;
      } else if !inGap {
        shown := shown + [Gap];
        inGap := true;
      }
      k := k + 1;
    }
    CollapsedEnd(full, keep);
  }

  /** All the items renderDiff would show of two texts. */
  function ItemsOf(aText: string, bText: string): seq<Item> {
    var full := Number(Align(RenderLines(aText), RenderLines(bText), RENDER_CAP), 0, 0);
    Collapsed(full, KeepOf(full), 0)
  }

  /** renderDiff end to end; past the row cap only a count remains. */
  method Draw(aText: string, bText: string) returns (drawn: seq<Item>, more: nat)
    ensures |drawn| == Min(|ItemsOf(aText, bText)|, SHOWN_CAP)
    ensures drawn == ItemsOf(aText, bText)[..|drawn|] && more == |ItemsOf(aText, bText)| - |drawn|
  {
    hide Collapsed, Align, Number, RenderLines;
    var full := RenderDiff(aText, bText);
    var keep := MarkKeep(full);
    assert keep[..] == KeepOf(full);
    var items := Collapse(full, keep[..]);
    if |items| > SHOWN_CAP {
      drawn, more := items[..SHOWN_CAP], |items| - SHOWN_CAP;
    } else {
      drawn, more := items, 0;
    }
  }

  function KeepOf(full: seq<DRow>): seq<bool> {
    seq(|full|, k => Near(full, |full|, k))
  }

  // ---------- what collapsing promises ----------

  /** With the markers removed the shown rows are exactly the kept ones, in order;
      putting each hidden run back in its marker's place restores the whole list,
      so every maximal run has one marker and every marker one run. */
  lemma {:induction false} CollapseRestores(full: seq<DRow>, keep: seq<bool>, k: nat)
    requires |keep| == |full| && k <= |full|
    ensures var items, runs := Collapsed(full, keep, k), HiddenRuns(full, keep, k);
            && StripGaps(items) == KeptRows(full, keep, k)
            && Gaps(items) == |runs|
            && Expand(items, runs) == full[k..]
    decreases |full| - k
  {
    if k < |full| {
      if keep[k] {
        CollapseRestores(full, keep, k + 1);
        KeptRestores(full, keep, k);
      } else {
        CollapseRestores(full, keep, RunEnd(keep, k));
        RunRestores(full, keep, k);
      }
    }
  }

  ghost predicate Restored(full: seq<DRow>, keep: seq<bool>, k: nat)
    requires |keep| == |full| && k <= |full|
  {
    var items, runs := Collapsed(full, keep, k), HiddenRuns(full, keep, k);
    && StripGaps(items) == KeptRows(full, keep, k)
    && Gaps(items) == |runs|
    && Expand(items, runs) == full[k..]
  }

  lemma {:induction false} KeptRestores(full: seq<DRow>, keep: seq<bool>, k: nat)
    requires |keep| == |full| && k < |full| && keep[k] && Restored(full, keep, k + 1)
    ensures Restored(full, keep, k)
  {
    var rest := Collapsed(full, keep, k + 1);
    assert ([Shown(full[k])] + rest)[1..] == rest;
    assert [full[k]] + full[k + 1..] == full[k..];
  }

  lemma {:induction false} RunRestores(full: seq<DRow>, keep: seq<bool>, k: nat)
    requires |keep| == |full| && k < |full| && !keep[k] && Restored(full, keep, RunEnd(keep, k))
    ensures Restored(full, keep, k)
  {
    var e := RunEnd(keep, k);
    HiddenRunKeepsNone(full, keep, k, e);
    var rest, runs := Collapsed(full, keep, e), HiddenRuns(full, keep, e);
    assert ([Gap] + rest)[1..] == rest && ([full[k..e]] + runs)[1..] == runs;
    assert full[k..e] + full[e..] == full[k..];
  }

  lemma {:induction false} HiddenRunKeepsNone(full: seq<DRow>, keep: seq<bool>, k: nat, e: nat)
    requires |keep| == |full| && k <= e <= |full| && forall x | k <= x < e :: !keep[x]
    ensures KeptRows(full, keep, k) == KeptRows(full, keep, e)
    decreases e - k
  {
    if k < e { HiddenRunKeepsNone(full, keep, k + 1, e); }
  }

  /** No two markers touch, so every marked run is maximal. */
  lemma {:induction false} NoGapsTouch(full: seq<DRow>, keep: seq<bool>, k: nat, i: nat)
    requires |keep| == |full| && k <= |full| && i + 1 < |Collapsed(full, keep, k)|
    ensures !(Collapsed(full, keep, k)[i].Gap? && Collapsed(full, keep, k)[i + 1].Gap?)
    decreases |full| - k
  {
    if k < |full| {
      var next := if keep[k] then k + 1 else RunEnd(keep, k);
      if i > 0 {
        NoGapsTouch(full, keep, next, i - 1);
      }
    }
  }

  /** A row is hidden exactly when it and the three rows on either side, as far as there
      are any, are all unchanged. */
  lemma {:induction false} HiddenExact(full: seq<DRow>, k: nat)
    requires k < |full|
    ensures !KeepOf(full)[k] <==> forall x | k - 3 <= x <= k + 3 && 0 <= x < |full| :: full[x].op.Ctx?
  {
    if !KeepOf(full)[k] {
      forall x | k - 3 <= x <= k + 3 && 0 <= x < |full|
        ensures full[x].op.Ctx?
      {
        assert !ChangeWithin(full, x, k);
      }
    }
  }

  /** No hidden run is empty and none holds a change. */
  lemma {:induction false} NoChangeHidden(full: seq<DRow>, k: nat, i: nat, j: nat)
    requires k <= |full| && i < |HiddenRuns(full, KeepOf(full), k)| && j < |HiddenRuns(full, KeepOf(full), k)[i]|
    ensures HiddenRuns(full, KeepOf(full), k)[i][j].op.Ctx?
    ensures HiddenRuns(full, KeepOf(full), k)[i] != []
    decreases |full| - k
  {
    var keep := KeepOf(full);
    if k < |full| {
      if keep[k] {
        NoChangeHidden(full, k + 1, i, j);
      } else if i > 0 {
        NoChangeHidden(full, RunEnd(keep, k), i - 1, j);
      } else {
        assert !keep[k + j];
        if IsChange(full[k + j]) {
          assert ChangeWithin(full, k + j, k + j);
        }
      }
    }
  }
}
