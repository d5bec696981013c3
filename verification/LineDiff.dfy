/** The two line differs as they run: trimming loops, a flat table filled bottom
    up, a greedy walk that pushes rows, and the collapse of unchanged runs. */
module LineDiff {
  import opened Basics
  import opened Scripts

  const RENDER_CAP := 4_000_000
  const EDIT_DIFF_MAX_CELLS := 640_000
  const SHOWN_CAP := 4_000
  const CONTEXT := 3

  /** A drawn row: the operation with its line numbers, where it has them. */
  datatype DRow = DRow(op: Op, la: Option<nat>, lb: Option<nat>)

  // ---------- texts and lines ----------

  function Lines(text: string): (ls: seq<Line>)
    ensures ls != []
  {
    if text == "" then [""]
    else
      var rest := Lines(text[1..]);
      if text[0] == '\n' then [""] + rest else [[text[0]] + rest[0]] + rest[1..]
  }

  function JoinLines(ls: seq<Line>): string
    requires ls != []
  {
    if |ls| == 1 then ls[0] else ls[0] + "\n" + JoinLines(ls[1..])
  }

  /** Every CRLF becomes a bare newline. */
  function DropCR(text: string): string {
    if text == "" then ""
    else if |text| >= 2 && text[0] == '\r' && text[1] == '\n' then "\n" + DropCR(text[2..])
    else [text[0]] + DropCR(text[1..])
  }

  predicate HasCRLF(text: string) {
    exists i | 0 <= i < |text| - 1 :: text[i] == '\r' && text[i + 1] == '\n'
  }

  lemma {:induction false} LinesJoin(text: string)
    ensures JoinLines(Lines(text)) == text
  {
    if text != "" {
      LinesJoin(text[1..]);
      var rest := Lines(text[1..]);
      if text[0] == '\n' {
        assert ([""] + rest)[1..] == rest;
        assert "" + "\n" + JoinLines(rest) == text;
      } else {
        var ls := [[text[0]] + rest[0]] + rest[1..];
        assert ls[1..] == rest[1..];
        assert JoinLines(ls) == [text[0]] + JoinLines(rest);
      }
    }
  }

  predicate Unbroken(ls: seq<Line>) {
    forall l | l in ls :: '\n' !in l
  }

  function Breaks(text: string): nat {
    if text == "" then 0 else (if text[0] == '\n' then 1 else 0) + Breaks(text[1..])
  }

  /** No line holds a break, and every break parts two lines. */
  lemma {:induction false} LinesUnbroken(text: string)
    ensures Unbroken(Lines(text)) && |Lines(text)| == 1 + Breaks(text)
  {
    if text != "" {
      LinesUnbroken(text[1..]);
      var rest := Lines(text[1..]);
      assert forall l | l in rest[1..] :: l in rest;
      assert rest[0] in rest;
    }
  }

  lemma {:induction false} FirstBreak(a: string, x: string, b: string, y: string)
    requires '\n' !in a && '\n' !in b && a + "\n" + x == b + "\n" + y
    ensures a == b && x == y
  {
    var s := a + "\n" + x;
    assert s[|a|] == '\n' && s[|b|] == '\n';
    assert forall i | 0 <= i < |a| :: s[i] == a[i] && s[i] in a;
    assert forall i | 0 <= i < |b| :: s[i] == b[i] && s[i] in b;
    assert |a| == |b|;
    assert a == s[..|a|] && b == s[..|b|];
    assert x == s[|a| + 1..] && y == s[|b| + 1..];
  }

  lemma {:induction false} JoinInjective(x: seq<Line>, y: seq<Line>)
    requires x != [] && y != [] && Unbroken(x) && Unbroken(y) && JoinLines(x) == JoinLines(y)
    ensures x == y
  {
    assert x[0] in x && y[0] in y;
    if |x| > 1 {
      assert JoinLines(x)[|x[0]|] == '\n';
    }
    if |y| > 1 {
      assert JoinLines(y)[|y[0]|] == '\n';
    }
    if |x| > 1 && |y| > 1 {
      FirstBreak(x[0], JoinLines(x[1..]), y[0], JoinLines(y[1..]));
      JoinInjective(x[1..], y[1..]);
      assert x == [x[0]] + x[1..] && y == [y[0]] + y[1..];
    }
  }

  /** A text's lines are the one way to part it at every break. */
  lemma {:induction false} LinesExact(text: string, ls: seq<Line>)
    requires ls != []
    ensures Lines(text) == ls <==> JoinLines(ls) == text && Unbroken(ls)
  {
    hide Lines, JoinLines, Unbroken;
    LinesJoin(text);
    LinesUnbroken(text);
    if JoinLines(ls) == text && Unbroken(ls) {
      JoinInjective(Lines(text), ls);
    }
  }

  /** Normalizing goes sequence by sequence: a text without any stands as it is
      (DropCRKeeps), and each one between two texts becomes a break. */
  lemma {:induction false} DropCRSplits(a: string, b: string)
    ensures DropCR(a + "\r\n" + b) == DropCR(a) + "\n" + DropCR(b)
  {
    hide DropCR;
    var s := a + "\r\n" + b;
    if a == "" {
      DropPair(b);
      assert s == "\r\n" + b;
      DropNothing();
    } else if |a| >= 2 && a[0] == '\r' && a[1] == '\n' {
      DropCRSplits(a[2..], b);
      assert a == "\r\n" + a[2..] && s == "\r\n" + (a[2..] + "\r\n" + b);
      DropPair(a[2..]);
      DropPair(a[2..] + "\r\n" + b);
    } else {
      DropCRSplits(a[1..], b);
      assert a == [a[0]] + a[1..] && s == [a[0]] + (a[1..] + "\r\n" + b);
      DropOne(a[0], a[1..]);
      DropOne(a[0], a[1..] + "\r\n" + b);
    }
  }

  lemma {:induction false} DropPair(rest: string)
    ensures DropCR("\r\n" + rest) == "\n" + DropCR(rest)
  {
    assert ("\r\n" + rest)[2..] == rest;
  }

  lemma {:induction false} DropOne(c: char, rest: string)
    requires !(c == '\r' && rest != "" && rest[0] == '\n')
    ensures DropCR([c] + rest) == [c] + DropCR(rest)
  {
    assert ([c] + rest)[1..] == rest;
  }

  lemma {:induction false} DropNothing()
    ensures DropCR("") == ""
  {
  }

  lemma {:induction false} DropCRKeeps(text: string)
    requires !HasCRLF(text)
    ensures DropCR(text) == text
  {
    if text != "" {
      DropCRKeeps(text[1..]);
    }
  }

  // ---------- numbered rows ----------

  function NextA(op: Op, i: nat): nat {
    if op.Add? then i else i + 1
  }

  function NextB(op: Op, j: nat): nat {
    if op.Del? then j else j + 1
  }

  function RowOf(op: Op, i: nat, j: nat): DRow {
    DRow(op, if op.Add? then None else Some(i + 1), if op.Del? then None else Some(j + 1))
  }

  /** Rows numbered from i lines of the old and j lines of the new text on. */
  function Number(ops: seq<Op>, i: nat, j: nat): (rows: seq<DRow>)
    ensures |rows| == |ops|
  {
    if ops == [] then [] else [RowOf(ops[0], i, j)] + Number(ops[1..], NextA(ops[0], i), NextB(ops[0], j))
  }

  lemma {:induction false} NumberConcat(x: seq<Op>, y: seq<Op>, i: nat, j: nat)
    ensures Number(x + y, i, j) == Number(x, i, j) + Number(y, i + |Old(x)|, j + |New(x)|)
  {
    hide RowOf;
    if x == [] {
      assert x + y == y;
    } else {
      assert (x + y)[1..] == x[1..] + y && (x + y)[0] == x[0];
      NumberConcat(x[1..], y, NextA(x[0], i), NextB(x[0], j));
      OldNewStep(x);
    }
  }

  lemma {:induction false} OldNewStep(x: seq<Op>)
    requires x != []
    ensures |Old(x)| == NextA(x[0], 0) + |Old(x[1..])| && |New(x)| == NextB(x[0], 0) + |New(x[1..])|
  {
  }

  /** A row carries a number for exactly the texts its line stands in. */
  lemma {:induction false} NumbersCarried(ops: seq<Op>, i: nat, j: nat, k: nat)
    requires k < |ops|
    ensures var r := Number(ops, i, j)[k];
            r.op == ops[k] && (r.la.Some? <==> !r.op.Add?) && (r.lb.Some? <==> !r.op.Del?)
  {
    if k > 0 {
      NumbersCarried(ops[1..], NextA(ops[0], i), NextB(ops[0], j), k - 1);
    }
  }

  /** Numbers run on: a row's number in a text is one more than the lines of that text
      in the rows before it. */
  lemma {:induction false} NumbersCount(ops: seq<Op>, i: nat, j: nat, k: nat)
    requires k < |ops|
    ensures var r := Number(ops, i, j)[k];
            && r.la == (if ops[k].Add? then None else Some(i + |Old(ops[..k])| + 1))
            && r.lb == (if ops[k].Del? then None else Some(j + |New(ops[..k])| + 1))
  {
    if k > 0 {
      NumbersCount(ops[1..], NextA(ops[0], i), NextB(ops[0], j), k - 1);
      assert ops[..k][1..] == ops[1..][..k - 1];
      OldNewStep(ops[..k]);
    }
  }

  /** The old text's number points at exactly the row's line... */
  lemma {:induction false} NumbersPointOld(ops: seq<Op>, i: nat, j: nat, k: nat)
    requires k < |ops| && Number(ops, i, j)[k].la.Some?
    ensures var r := Number(ops, i, j)[k];
            0 <= r.la.value - 1 - i < |Old(ops)| && Old(ops)[r.la.value - 1 - i] == r.op.s
  {
    if k > 0 {
      NumbersPointOld(ops[1..], NextA(ops[0], i), NextB(ops[0], j), k - 1);
    }
  }

  /** ...and the new text's likewise. */
  lemma {:induction false} NumbersPointNew(ops: seq<Op>, i: nat, j: nat, k: nat)
    requires k < |ops| && Number(ops, i, j)[k].lb.Some?
    ensures var r := Number(ops, i, j)[k];
            0 <= r.lb.value - 1 - j < |New(ops)| && New(ops)[r.lb.value - 1 - j] == r.op.s
  {
    if k > 0 {
      NumbersPointNew(ops[1..], NextA(ops[0], i), NextB(ops[0], j), k - 1);
    }
  }

  // ---------- the flat table ----------

  function Cell(i: nat, j: nat, w: nat): nat {
    i * w + j
  }

  lemma {:induction false} CellInside(i: nat, j: nat, n: nat, w: nat)
    requires i <= n && j < w
    ensures Cell(i, j, w) < (n + 1) * w
  {
    assert (i + 1) * w <= (n + 1) * w;
    assert (i + 1) * w == i * w + w;
  }

  lemma {:induction false} CellDistinct(i: nat, j: nat, i': nat, j': nat, w: nat)
    requires j < w && j' < w && (i != i' || j != j')
    ensures Cell(i, j, w) != Cell(i', j', w)
  {
    if i < i' {
      assert (i + 1) * w <= i' * w;
      assert (i + 1) * w == i * w + w;
    } else if i' < i {
      assert (i' + 1) * w <= i * w;
      assert (i' + 1) * w == i' * w + w;
    }
  }

  predicate CellTrue(d: seq<int>, a: seq<Line>, b: seq<Line>, i: nat, j: nat)
    requires i <= |a| && j <= |b|
  {
    Cell(i, j, |b| + 1) < |d| && d[Cell(i, j, |b| + 1)] == Lcs(a[i..], b[j..])
  }

  /** Every cell at or after (i, j) in filling order, and the zero border, holds
      the LCS length of its two suffixes. */
  ghost predicate Filled(d: seq<int>, a: seq<Line>, b: seq<Line>, i: nat, j: nat) {
    forall x, y | 0 <= x <= |a| && 0 <= y <= |b| ::
      x == |a| || y == |b| || x > i || (x == i && y >= j) ==> CellTrue(d, a, b, x, y)
  }

  lemma {:induction false} BorderFilled(d: seq<int>, a: seq<Line>, b: seq<Line>)
    requires |d| == (|a| + 1) * (|b| + 1) && forall k | 0 <= k < |d| :: d[k] == 0
    ensures Filled(d, a, b, |a|, 0)
  {
    forall x, y | 0 <= x <= |a| && 0 <= y <= |b| && (x == |a| || y == |b|)
      ensures CellTrue(d, a, b, x, y)
    {
      CellInside(x, y, |a|, |b| + 1);
    }
  }

  lemma {:induction false} FillStep(d: seq<int>, a: seq<Line>, b: seq<Line>, i: nat, j: nat, v: int)
    requires i < |a| && j < |b| && |d| == (|a| + 1) * (|b| + 1) && Filled(d, a, b, i, j + 1)
    requires Cell(i, j, |b| + 1) < |d| && v == Lcs(a[i..], b[j..])
    ensures Filled(d[Cell(i, j, |b| + 1) := v], a, b, i, j)
  {
    hide Lcs, Cell;
    var d' := d[Cell(i, j, |b| + 1) := v];
    forall x, y | 0 <= x <= |a| && 0 <= y <= |b| && (x == |a| || y == |b| || x > i || (x == i && y >= j))
      ensures CellTrue(d', a, b, x, y)
    {
      if x != i || y != j {
        assert CellTrue(d, a, b, x, y);
        CellDistinct(x, y, i, j, |b| + 1);
      }
    }
  }

  lemma {:induction false} LcsAt(a: seq<Line>, b: seq<Line>, i: nat, j: nat)
    requires i < |a| && j < |b|
    ensures Lcs(a[i..], b[j..]) == if a[i] == b[j] then Lcs(a[i + 1..], b[j + 1..]) + 1
                                   else Max(Lcs(a[i + 1..], b[j..]), Lcs(a[i..], b[j + 1..]))
  {
    assert a[i..][1..] == a[i + 1..] && b[j..][1..] == b[j + 1..];
  }

  method FillTable(a: seq<Line>, b: seq<Line>) returns (dp: array<int>)
    ensures fresh(dp) && dp.Length == (|a| + 1) * (|b| + 1)
    ensures Filled(dp[..], a, b, 0, 0)
  {
    hide Lcs, Cell, Filled;
    var n, m, w := |a|, |b|, |b| + 1;
    dp := new int[(n + 1) * w](_ => 0);
    BorderFilled(dp[..], a, b);
    var i := n;
    while i > 0
      invariant 0 <= i <= n && Filled(dp[..], a, b, i, 0)
    {
      i := i - 1;
      RowBorder(dp[..], a, b, i);
      var j := m;
      while j > 0
        invariant 0 <= j <= m && Filled(dp[..], a, b, i, j)
      {
        j := j - 1;
        FilledAt(dp[..], a, b, i, j);
        CellInside(i, j, n, w);
        LcsAt(a, b, i, j);
        var v := if a[i] == b[j] then dp[Cell(i + 1, j + 1, w)] + 1
                 else Max(dp[Cell(i + 1, j, w)], dp[Cell(i, j + 1, w)]);
        FillStep(dp[..], a, b, i, j, v);
        dp[Cell(i, j, w)] := v;
      }
    }
  }

  /** The row above a filled row starts on its zero border. */
  lemma {:induction false} RowBorder(d: seq<int>, a: seq<Line>, b: seq<Line>, i: nat)
    requires i < |a| && Filled(d, a, b, i + 1, 0)
    ensures Filled(d, a, b, i, |b|)
  {
  }

  /** The three neighbours a cell is computed from. */
  lemma {:induction false} FilledAt(d: seq<int>, a: seq<Line>, b: seq<Line>, i: nat, j: nat)
    requires i < |a| && j < |b| && Filled(d, a, b, i, j + 1)
    ensures CellTrue(d, a, b, i + 1, j + 1) && CellTrue(d, a, b, i + 1, j) && CellTrue(d, a, b, i, j + 1)
  {
  }

  /** Every entry of a table under the cap fits its 32-bit cell. */
  lemma {:induction false} TableFits(a: seq<Line>, b: seq<Line>, i: nat, j: nat)
    requires a != [] && b != [] && |a| * |b| <= RENDER_CAP && i <= |a| && j <= |b|
    ensures Lcs(a[i..], b[j..]) < 0x8000_0000
  {
    hide Lcs;
    LcsBounded(a[i..], b[j..]);
    assert |a| <= |a| * |b|;
  }

  // ---------- the differs ----------

  /** The two trimming loops, as both differs run them. */
  method Trim(a: seq<Line>, b: seq<Line>) returns (h: nat, e: nat)
    ensures h == Head(a, b) && e == Tail(a, b)
  {
    hide CommonHead, CommonTail;
    h := TrimHead(a, b);
    e := TrimTail(a[h..], b[h..]);
  }

  method TrimHead(a: seq<Line>, b: seq<Line>) returns (h: nat)
    ensures h == CommonHead(a, b)
  {
    h := 0;
    while h < |a| && h < |b| && a[h] == b[h]
      invariant h <= |a| && h <= |b| && CommonHead(a, b) == h + CommonHead(a[h..], b[h..])
    {
      assert a[h..][1..] == a[h + 1..] && b[h..][1..] == b[h + 1..];
      h := h + 1;
    }
  }

  method TrimTail(a: seq<Line>, b: seq<Line>) returns (e: nat)
    ensures e == CommonTail(a, b)
  {
    e := 0;
    assert a[..|a|] == a && b[..|b|] == b;
    while e < |a| && e < |b| && a[|a| - 1 - e] == b[|b| - 1 - e]
      invariant e <= |a| && e <= |b| && CommonTail(a, b) == e + CommonTail(a[..|a| - e], b[..|b| - e])
    {
      var x, y := a[..|a| - e], b[..|b| - e];
      assert x[..|x| - 1] == a[..|a| - e - 1] && y[..|y| - 1] == b[..|b| - e - 1];
      e := e + 1;
    }
  }

  /** The walk from the i-th old and the j-th new line on. */
  function RestOps(a: seq<Line>, b: seq<Line>, i: nat, j: nat): seq<Op>
    requires i <= |a| && j <= |b|
  {
    Walk(a[i..], b[j..])
  }

  lemma {:induction false} RestOpsAt(a: seq<Line>, b: seq<Line>, i: nat, j: nat)
    requires i < |a| && j < |b|
    ensures RestOps(a, b, i, j) ==
            if a[i] == b[j] then [Ctx(a[i])] + RestOps(a, b, i + 1, j + 1)
            else if Lcs(a[i + 1..], b[j..]) >= Lcs(a[i..], b[j + 1..]) then [Del(a[i])] + RestOps(a, b, i + 1, j)
            else [Add(b[j])] + RestOps(a, b, i, j + 1)
  {
    assert a[i..][1..] == a[i + 1..] && b[j..][1..] == b[j + 1..];
  }

  lemma {:induction false} RestOpsAll(a: seq<Line>, b: seq<Line>)
    ensures RestOps(a, b, 0, 0) == Walk(a, b)
  {
    assert a[0..] == a && b[0..] == b;
  }

  lemma {:induction false} RestOpsDrain(a: seq<Line>, b: seq<Line>, i: nat, j: nat)
    requires i <= |a| && j <= |b| && (i == |a| || j == |b|)
    ensures RestOps(a, b, i, j) == Dels(a[i..]) + Adds(b[j..])
  {
    hide Walk, Dels, Adds;
    WalkDrains(a[i..], b[j..]);
  }

  lemma {:induction false} DelsAt(a: seq<Line>, i: nat)
    requires i < |a|
    ensures Dels(a[i..]) == [Del(a[i])] + Dels(a[i + 1..])
  {
    assert a[i..][1..] == a[i + 1..];
  }

  lemma {:induction false} AddsAt(b: seq<Line>, j: nat)
    requires j < |b|
    ensures Adds(b[j..]) == [Add(b[j])] + Adds(b[j + 1..])
  {
    assert b[j..][1..] == b[j + 1..];
  }

  lemma {:induction false} CtxsAt(a: seq<Line>, i: nat)
    requires i < |a|
    ensures Ctxs(a[i..]) == [Ctx(a[i])] + Ctxs(a[i + 1..])
  {
    assert a[i..][1..] == a[i + 1..];
  }

  /** The walk's table decisions, cell by cell. */
  lemma {:induction false} TableAt(d: seq<int>, a: seq<Line>, b: seq<Line>, i: nat, j: nat)
    requires i <= |a| && j <= |b| && Filled(d, a, b, 0, 0)
    ensures CellTrue(d, a, b, i, j)
  {
  }

  /** What the walk reads off the table: deleting costs no common line. */
  method DeletesFirst(dp: array<int>, a: seq<Line>, b: seq<Line>, i: nat, j: nat) returns (d: bool)
    requires i < |a| && j < |b| && Filled(dp[..], a, b, 0, 0)
    ensures d == (Lcs(a[i + 1..], b[j..]) >= Lcs(a[i..], b[j + 1..]))
  {
    hide Lcs, Cell, Filled;
    TableAt(dp[..], a, b, i + 1, j);
    TableAt(dp[..], a, b, i, j + 1);
    var w := |b| + 1;
    d := dp[Cell(i + 1, j, w)] >= dp[Cell(i, j + 1, w)];
  }

  /** The aligned middle, with table and walk: the operations in order. */
  method AlignMiddle(a: seq<Line>, b: seq<Line>) returns (ops: seq<Op>)
    ensures ops == Walk(a, b)
  {
    hide Lcs, Walk, Cell, Filled, Dels, Adds, RestOps;
    var dp := FillTable(a, b);
    ops := [];
    var i, j := 0, 0;
    RestOpsAll(a, b);
    while i < |a| && j < |b|
      invariant i <= |a| && j <= |b| && Filled(dp[..], a, b, 0, 0)
      invariant Walk(a, b) == ops + RestOps(a, b, i, j)
      decreases |a| - i + |b| - j
    {
      RestOpsAt(a, b, i, j);
      var deletes := DeletesFirst(dp, a, b, i, j);
      if a[i] == b[j] {
        ops := ops + [Ctx(a[i])];
        i, j := i + 1, j + 1;
      } else if deletes {
        ops := ops + [Del(a[i])];
        i := i + 1;
      } else {
        ops := ops + [Add(b[j])];
        j := j + 1;
      }
    }
    RestOpsDrain(a, b, i, j);
    var block := Block(a[i..], b[j..]);
    ops := ops + block;
  }

  lemma {:induction false} WalkDrains(a: seq<Line>, b: seq<Line>)
    requires a == [] || b == []
    ensures Walk(a, b) == Dels(a) + Adds(b)
  {
  }

  /** Every old line leaves, every new line arrives. */
  method Block(a: seq<Line>, b: seq<Line>) returns (ops: seq<Op>)
    ensures ops == Dels(a) + Adds(b)
  {
    hide Dels, Adds;
    ops := [];
    var i := 0;
    assert a[0..] == a;
    while i < |a|
      invariant i <= |a| && ops + Dels(a[i..]) == Dels(a)
    {
      DelsAt(a, i);
      ops := ops + [Del(a[i])];
      i := i + 1;
    }
    DelsNone();
    assert a[i..] == [];
    var j := 0;
    assert b[0..] == b;
    while j < |b|
      invariant j <= |b| && ops + Adds(b[j..]) == Dels(a) + Adds(b)
    {
      AddsAt(b, j);
      ops := ops + [Add(b[j])];
      j := j + 1;
    }
    assert b[j..] == [];
  }

  lemma {:induction false} DelsNone()
    ensures Dels([]) == [] && Adds([]) == [] && Ctxs([]) == []
  {
  }

  /** unifiedLineDiff: bare operations; an empty middle goes to the block too. */
  method UnifiedLineDiff(oldText: string, newText: string) returns (out: seq<Op>)
    ensures out == Align(Lines(oldText), Lines(newText), EDIT_DIFF_MAX_CELLS)
  {
    hide Lines, Walk, Dels, Adds, Ctxs, CommonHead, CommonTail, Lcs;
    var a, b := Lines(oldText), Lines(newText);
    var h, e := Trim(a, b);
    var am, bm := a[h..|a| - e], b[h..|b| - e];
    var ops;
    if |am| > 0 && |bm| > 0 && |am| * |bm| <= EDIT_DIFF_MAX_CELLS {
      ops := AlignMiddle(am, bm);
    } else {
      ops := Block(am, bm);
      if am == [] || bm == [] {
        WalkDrains(am, bm);
      }
    }
    var head := Context(a[..h]);
    var tail := Context(a[|a| - e..]);
    out := head + ops + tail;
  }

  method Context(ls: seq<Line>) returns (ops: seq<Op>)
    ensures ops == Ctxs(ls)
  {
    hide Ctxs;
    ops := [];
    var i := 0;
    assert ls[0..] == ls;
    while i < |ls|
      invariant i <= |ls| && ops + Ctxs(ls[i..]) == Ctxs(ls)
    {
      CtxsAt(ls, i);
      ops := ops + [Ctx(ls[i])];
      i := i + 1;
    }
    DelsNone();
    assert ls[i..] == [];
  }

  // ---------- renderDiff ----------

  lemma {:induction false} NumberStep(op: Op, rest: seq<Op>, i: nat, j: nat)
    ensures Number([op] + rest, i, j) == [RowOf(op, i, j)] + Number(rest, NextA(op, i), NextB(op, j))
  {
    assert ([op] + rest)[1..] == rest;
  }

  /** The numbered walk from the i-th old and the j-th new line on. */
  function RestRows(a: seq<Line>, b: seq<Line>, i: nat, j: nat, p: nat): seq<DRow>
    requires i <= |a| && j <= |b|
  {
    Number(Walk(a[i..], b[j..]), p + i, p + j)
  }

  lemma {:induction false} RestRowsAt(a: seq<Line>, b: seq<Line>, i: nat, j: nat, p: nat)
    requires i < |a| && j < |b|
    ensures RestRows(a, b, i, j, p) ==
            if a[i] == b[j] then
              [DRow(Ctx(a[i]), Some(p + i + 1), Some(p + j + 1))] + RestRows(a, b, i + 1, j + 1, p)
            else if Lcs(a[i + 1..], b[j..]) >= Lcs(a[i..], b[j + 1..]) then
              [DRow(Del(a[i]), Some(p + i + 1), None)] + RestRows(a, b, i + 1, j, p)
            else
              [DRow(Add(b[j]), None, Some(p + j + 1))] + RestRows(a, b, i, j + 1, p)
  {
    hide Lcs, Walk, Number;
    RestOpsAt(a, b, i, j);
    if a[i] == b[j] {
      NumberStep(Ctx(a[i]), Walk(a[i + 1..], b[j + 1..]), p + i, p + j);
    } else if Lcs(a[i + 1..], b[j..]) >= Lcs(a[i..], b[j + 1..]) {
      NumberStep(Del(a[i]), Walk(a[i + 1..], b[j..]), p + i, p + j);
    } else {
      NumberStep(Add(b[j]), Walk(a[i..], b[j + 1..]), p + i, p + j);
    }
  }

  lemma {:induction false} RestRowsAll(a: seq<Line>, b: seq<Line>, p: nat)
    ensures RestRows(a, b, 0, 0, p) == Number(Walk(a, b), p, p)
  {
    assert a[0..] == a && b[0..] == b;
  }

  lemma {:induction false} RestRowsDrain(a: seq<Line>, b: seq<Line>, i: nat, j: nat, p: nat)
    requires i <= |a| && j <= |b| && (i == |a| || j == |b|)
    ensures RestRows(a, b, i, j, p) == Number(Dels(a[i..]) + Adds(b[j..]), p + i, p + j)
  {
    hide Number, Walk, Dels, Adds;
    WalkDrains(a[i..], b[j..]);
  }

  /** The aligned middle again, this time pushing numbered rows; p is the length
      of the trimmed head. */
  method RenderMiddle(a: seq<Line>, b: seq<Line>, p: nat) returns (rows: seq<DRow>)
    ensures rows == Number(Walk(a, b), p, p)
  {
    hide Lcs, Walk, Cell, Filled, Dels, Adds, Number, RestRows;
    var dp := FillTable(a, b);
    rows := [];
    var i, j := 0, 0;
    RestRowsAll(a, b, p);
    while i < |a| && j < |b|
      invariant i <= |a| && j <= |b| && Filled(dp[..], a, b, 0, 0)
      invariant Number(Walk(a, b), p, p) == rows + RestRows(a, b, i, j, p)
      decreases |a| - i + |b| - j
    {
      RestRowsAt(a, b, i, j, p);
      var deletes := DeletesFirst(dp, a, b, i, j);
      if a[i] == b[j] {
        rows := rows + [DRow(Ctx(a[i]), Some(p + i + 1), Some(p + j + 1))];
        i, j := i + 1, j + 1;
      } else if deletes {
        rows := rows + [DRow(Del(a[i]), Some(p + i + 1), None)];
        i := i + 1;
      } else {
        rows := rows + [DRow(Add(b[j]), None, Some(p + j + 1))];
        j := j + 1;
      }
    }
    RestRowsDrain(a, b, i, j, p);
    var block := RenderBlock(a[i..], b[j..], p + i, p + j);
    rows := rows + block;
  }

  /** Deletions numbered from i, then insertions numbered from j. */
  method RenderBlock(a: seq<Line>, b: seq<Line>, i: nat, j: nat) returns (rows: seq<DRow>)
    ensures rows == Number(Dels(a) + Adds(b), i, j)
  {
    hide Dels, Adds, Number;
    rows := [];
    var x := 0;
    assert a[0..] == a;
    while x < |a|
      invariant x <= |a| && rows + Number(Dels(a[x..]) + Adds(b), i + x, j) == Number(Dels(a) + Adds(b), i, j)
    {
      DelsAt(a, x);
      assert Dels(a[x..]) + Adds(b) == [Del(a[x])] + (Dels(a[x + 1..]) + Adds(b));
      NumberStep(Del(a[x]), Dels(a[x + 1..]) + Adds(b), i + x, j);
      rows := rows + [DRow(Del(a[x]), Some(i + x + 1), None)];
      x := x + 1;
    }
    DelsNone();
    assert a[x..] == [] && [] + Adds(b) == Adds(b) && b[0..] == b;
    var y := 0;
    while y < |b|
      invariant y <= |b| && rows + Number(Adds(b[y..]), i + x, j + y) == Number(Dels(a) + Adds(b), i, j)
    {
      AddsAt(b, y);
      NumberStep(Add(b[y]), Adds(b[y + 1..]), i + x, j + y);
      rows := rows + [DRow(Add(b[y]), None, Some(j + y + 1))];
      y := y + 1;
    }
    NumberNone(i + x, j + y);
    assert b[y..] == [];
  }

  lemma {:induction false} NumberNone(i: nat, j: nat)
    ensures Number([], i, j) == []
  {
  }

  method RenderContext(ls: seq<Line>, i: nat, j: nat) returns (rows: seq<DRow>)
    ensures rows == Number(Ctxs(ls), i, j)
  {
    hide Ctxs, Number;
    rows := [];
    var k := 0;
    assert ls[0..] == ls;
    while k < |ls|
      invariant k <= |ls| && rows + Number(Ctxs(ls[k..]), i + k, j + k) == Number(Ctxs(ls), i, j)
    {
      CtxsAt(ls, k);
      NumberStep(Ctx(ls[k]), Ctxs(ls[k + 1..]), i + k, j + k);
      rows := rows + [DRow(Ctx(ls[k]), Some(i + k + 1), Some(j + k + 1))];
      k := k + 1;
    }
    DelsNone();
    NumberNone(i + k, j + k);
    assert ls[k..] == [];
  }

  function RenderLines(text: string): seq<Line> {
    Lines(DropCR(text))
  }

  lemma {:induction false} ThreeNumbered(x: seq<Op>, m: seq<Op>, y: seq<Op>)
    ensures Number(x + m + y, 0, 0) ==
            Number(x, 0, 0) + Number(m, |Old(x)|, |New(x)|) + Number(y, |Old(x)| + |Old(m)|, |New(x)| + |New(m)|)
  {
    hide Number, Old, New;
    ScriptConcat(x, m);
    NumberConcat(x + m, y, 0, 0);
    NumberConcat(x, m, 0, 0);
  }

  lemma {:induction false} PartsMeasure(a: seq<Line>, b: seq<Line>, cap: nat)
    ensures var h, e := Head(a, b), Tail(a, b);
            var head, mid := Ctxs(a[..h]), Middle(MidA(a, b), MidB(a, b), cap);
            && |Old(head)| == h && |New(head)| == h
            && |Old(mid)| == |a| - e - h && |New(mid)| == |b| - e - h
  {
    hide Ctxs, Middle, CommonHead, CommonTail, Old, New, Lcs;
    BlockScripts(a[..Head(a, b)]);
    MiddleIsScript(MidA(a, b), MidB(a, b), cap);
  }

  /** Where the three parts of the row list start counting. */
  lemma {:induction false} PartsNumbered(a: seq<Line>, b: seq<Line>, cap: nat)
    ensures var h, e := Head(a, b), Tail(a, b);
            var mid := Middle(MidA(a, b), MidB(a, b), cap);
            Number(Align(a, b, cap), 0, 0) ==
            Number(Ctxs(a[..h]), 0, 0) + Number(mid, h, h) + Number(Ctxs(a[|a| - e..]), |a| - e, |b| - e)
  {
    hide Number, Ctxs, Middle, CommonHead, CommonTail, Old, New, Lcs, MidA, MidB, Head, Tail;
    var h, e := Head(a, b), Tail(a, b);
    PartsMeasure(a, b, cap);
    ThreeNumbered(Ctxs(a[..h]), Middle(MidA(a, b), MidB(a, b), cap), Ctxs(a[|a| - e..]));
  }

  /** renderDiff's row list, before unchanged runs collapse. */
  method RenderDiff(aText: string, bText: string) returns (full: seq<DRow>)
    ensures full == Number(Align(RenderLines(aText), RenderLines(bText), RENDER_CAP), 0, 0)
  {
    hide Lines, DropCR, Walk, Dels, Adds, Ctxs, CommonHead, CommonTail, Lcs, Number, Align;
    var a, b := Lines(DropCR(aText)), Lines(DropCR(bText));
    var p, s := Trim(a, b);
    var midA, midB := a[p..|a| - s], b[p..|b| - s];
    var rows;
    if |midA| > 0 && |midB| > 0 && |midA| * |midB| > RENDER_CAP {
      rows := RenderBlock(midA, midB, p, p);
    } else {
      rows := RenderMiddle(midA, midB, p);
    }
    var head := RenderContext(a[..p], 0, 0);
    var tail := RenderContext(a[|a| - s..], |a| - s, |b| - s);
    full := head + rows + tail;
    PartsNumbered(a, b, RENDER_CAP);
  }

  // ---------- what the differs promise ----------

  function OpsOf(rows: seq<DRow>): seq<Op> {
    if rows == [] then [] else [rows[0].op] + OpsOf(rows[1..])
  }

  lemma {:induction false} OpsOfNumber(ops: seq<Op>, i: nat, j: nat)
    ensures OpsOf(Number(ops, i, j)) == ops
  {
    if ops != [] {
      OpsOfNumber(ops[1..], NextA(ops[0], i), NextB(ops[0], j));
      assert Number(ops, i, j)[1..] == Number(ops[1..], NextA(ops[0], i), NextB(ops[0], j));
    }
  }

  /** Both differs reconstruct both texts in every branch: joining the lines left
      when insertions (deletions) are dropped gives back the old (new) text. */
  lemma {:induction false} DiffsReconstruct(x: string, y: string, cap: nat)
    ensures var ops := Align(Lines(x), Lines(y), cap);
            && Old(ops) != [] && JoinLines(Old(ops)) == x
            && New(ops) != [] && JoinLines(New(ops)) == y
  {
    hide Lines, JoinLines, Align, Old, New;
    AlignReconstructs(Lines(x), Lines(y), cap);
    LinesJoin(x);
    LinesJoin(y);
  }

  /** Every row of renderDiff carries a number for exactly the texts its line
      stands in, pointing at exactly that line. */
  lemma {:induction false} RenderNumbersPoint(aText: string, bText: string, k: nat)
    requires k < |Align(RenderLines(aText), RenderLines(bText), RENDER_CAP)|
    ensures var A, B := RenderLines(aText), RenderLines(bText);
            var r := Number(Align(A, B, RENDER_CAP), 0, 0)[k];
            && (r.la.Some? <==> !r.op.Add?) && (r.lb.Some? <==> !r.op.Del?)
            && (r.la.Some? ==> 1 <= r.la.value <= |A| && A[r.la.value - 1] == r.op.s)
            && (r.lb.Some? ==> 1 <= r.lb.value <= |B| && B[r.lb.value - 1] == r.op.s)
  {
    hide RenderLines, Align, Old, New, Number;
    var A, B := RenderLines(aText), RenderLines(bText);
    var ops := Align(A, B, RENDER_CAP);
    AlignReconstructs(A, B, RENDER_CAP);
    NumbersCarried(ops, 0, 0, k);
    if !ops[k].Add? {
      NumbersPointOld(ops, 0, 0, k);
    }
    if !ops[k].Del? {
      NumbersPointNew(ops, 0, 0, k);
    }
  }

  /** On texts without CRLF the two differs give the same rows exactly when the
      changed middle is within the smaller cap, above the larger one, or shares
      no line. */
  lemma {:induction false} DiffersAgreeExact(x: string, y: string)
    requires !HasCRLF(x) && !HasCRLF(y)
    ensures var a, b := Lines(x), Lines(y);
            var cells := |MidA(a, b)| * |MidB(a, b)|;
            OpsOf(Number(Align(RenderLines(x), RenderLines(y), RENDER_CAP), 0, 0)) ==
            Align(a, b, EDIT_DIFF_MAX_CELLS) <==>
            cells <= EDIT_DIFF_MAX_CELLS || cells > RENDER_CAP || Lcs(MidA(a, b), MidB(a, b)) == 0
  {
    hide Lines, DropCR, Align, Number, Lcs, HasCRLF;
    DropCRKeeps(x);
    DropCRKeeps(y);
    var a, b := Lines(x), Lines(y);
    OpsOfNumber(Align(a, b, RENDER_CAP), 0, 0);
    CapsAgreeExact(a, b, EDIT_DIFF_MAX_CELLS, RENDER_CAP);
  }
}
