/** Edit scripts over lines, the longest common subsequence they are measured
    by, and the alignment both line differs compute. */
module Scripts {
  import opened Basics

  type Line = string

  datatype Op = Ctx(s: Line) | Del(s: Line) | Add(s: Line)

  /** The text a script starts from: what is left when insertions are dropped. */
  function Old(ops: seq<Op>): seq<Line> {
    if ops == [] then []
    else (if ops[0].Add? then [] else [ops[0].s]) + Old(ops[1..])
  }

  /** The text a script arrives at: what is left when deletions are dropped. */
  function New(ops: seq<Op>): seq<Line> {
    if ops == [] then []
    else (if ops[0].Del? then [] else [ops[0].s]) + New(ops[1..])
  }

  /** How many lines a script keeps. */
  function Kept(ops: seq<Op>): nat {
    if ops == [] then 0
    else (if ops[0].Ctx? then 1 else 0) + Kept(ops[1..])
  }

  /** Deletions plus insertions. */
  function Cost(ops: seq<Op>): int {
    |ops| - Kept(ops)
  }

  function Lcs(a: seq<Line>, b: seq<Line>): nat
    decreases |a| + |b|
  {
    if a == [] || b == [] then 0
    else if a[0] == b[0] then 1 + Lcs(a[1..], b[1..])
    else Max(Lcs(a[1..], b), Lcs(a, b[1..]))
  }

  function Ctxs(ls: seq<Line>): seq<Op> {
    if ls == [] then [] else [Ctx(ls[0])] + Ctxs(ls[1..])
  }

  function Dels(ls: seq<Line>): seq<Op> {
    if ls == [] then [] else [Del(ls[0])] + Dels(ls[1..])
  }

  function Adds(ls: seq<Line>): seq<Op> {
    if ls == [] then [] else [Add(ls[0])] + Adds(ls[1..])
  }

  /** The greedy walk over the table: keep a match, else delete unless inserting
      leaves strictly more in common. */
  function Walk(a: seq<Line>, b: seq<Line>): seq<Op>
    decreases |a| + |b|
  {
    if a == [] then Adds(b)
    else if b == [] then Dels(a)
    else if a[0] == b[0] then [Ctx(a[0])] + Walk(a[1..], b[1..])
    else if Lcs(a[1..], b) >= Lcs(a, b[1..]) then [Del(a[0])] + Walk(a[1..], b)
    else [Add(b[0])] + Walk(a, b[1..])
  }

  /** Above the cell cap the changed middle is one block. */
  function Middle(a: seq<Line>, b: seq<Line>, cap: nat): seq<Op> {
    if |a| * |b| > cap then Dels(a) + Adds(b) else Walk(a, b)
  }

  function CommonHead(a: seq<Line>, b: seq<Line>): (h: nat)
    ensures h <= |a| && h <= |b|
  {
    if a == [] || b == [] || a[0] != b[0] then 0 else 1 + CommonHead(a[1..], b[1..])
  }

  function CommonTail(a: seq<Line>, b: seq<Line>): (e: nat)
    ensures e <= |a| && e <= |b|
  {
    if a == [] || b == [] || a[|a| - 1] != b[|b| - 1] then 0
    else 1 + CommonTail(a[..|a| - 1], b[..|b| - 1])
  }

  function Head(a: seq<Line>, b: seq<Line>): nat {
    CommonHead(a, b)
  }

  function Tail(a: seq<Line>, b: seq<Line>): (e: nat)
    ensures e + Head(a, b) <= |a| && e + Head(a, b) <= |b|
  {
    CommonTail(a[Head(a, b)..], b[Head(a, b)..])
  }

  function MidA(a: seq<Line>, b: seq<Line>): seq<Line> {
    a[Head(a, b)..|a| - Tail(a, b)]
  }

  function MidB(a: seq<Line>, b: seq<Line>): seq<Line> {
    b[Head(a, b)..|b| - Tail(a, b)]
  }

  function Align(a: seq<Line>, b: seq<Line>, cap: nat): seq<Op> {
    Ctxs(a[..Head(a, b)]) + Middle(MidA(a, b), MidB(a, b), cap) + Ctxs(a[|a| - Tail(a, b)..])
  }

  // ---------- scripts compose ----------

  lemma {:induction false} ScriptConcat(x: seq<Op>, y: seq<Op>)
    ensures Old(x + y) == Old(x) + Old(y)
    ensures New(x + y) == New(x) + New(y)
    ensures Kept(x + y) == Kept(x) + Kept(y)
  {
    hide Old, New, Kept;
    OldConcat(x, y);
    NewConcat(x, y);
    KeptConcat(x, y);
  }

  lemma {:induction false} OldConcat(x: seq<Op>, y: seq<Op>)
    ensures Old(x + y) == Old(x) + Old(y)
  {
    if x == [] {
      assert x + y == y;
    } else {
      ConcatStep(x, y);
      OldConcat(x[1..], y);
    }
  }

  lemma {:induction false} NewConcat(x: seq<Op>, y: seq<Op>)
    ensures New(x + y) == New(x) + New(y)
  {
    if x == [] {
      assert x + y == y;
    } else {
      ConcatStep(x, y);
      NewConcat(x[1..], y);
    }
  }

  lemma {:induction false} KeptConcat(x: seq<Op>, y: seq<Op>)
    ensures Kept(x + y) == Kept(x) + Kept(y)
  {
    if x == [] {
      assert x + y == y;
    } else {
      ConcatStep(x, y);
      KeptConcat(x[1..], y);
    }
  }

  lemma {:induction false} ConcatStep(x: seq<Op>, y: seq<Op>)
    requires x != []
    ensures x + y != [] && (x + y)[1..] == x[1..] + y && (x + y)[0] == x[0]
  {
  }

  lemma {:induction false} BlockScripts(ls: seq<Line>)
    ensures Old(Ctxs(ls)) == ls && New(Ctxs(ls)) == ls && Kept(Ctxs(ls)) == |ls|
    ensures Old(Dels(ls)) == ls && New(Dels(ls)) == [] && Kept(Dels(ls)) == 0
    ensures Old(Adds(ls)) == [] && New(Adds(ls)) == ls && Kept(Adds(ls)) == 0
    ensures |Ctxs(ls)| == |Dels(ls)| == |Adds(ls)| == |ls|
  {
    if ls != [] {
      BlockScripts(ls[1..]);
      assert ls == [ls[0]] + ls[1..];
    }
  }

  // ---------- the longest common subsequence ----------

  /** Dropping a head never gains and costs at most one. */
  lemma {:induction false} LcsSteps(a: seq<Line>, b: seq<Line>)
    ensures a != [] ==> Lcs(a[1..], b) <= Lcs(a, b) <= Lcs(a[1..], b) + 1
    ensures b != [] ==> Lcs(a, b[1..]) <= Lcs(a, b) <= Lcs(a, b[1..]) + 1
    decreases |a| + |b|
  {
    if a != [] && b != [] {
      LcsSteps(a[1..], b);
      LcsSteps(a, b[1..]);
    }
  }

  lemma {:induction false} LcsBounded(a: seq<Line>, b: seq<Line>)
    ensures Lcs(a, b) <= |a| && Lcs(a, b) <= |b|
    decreases |a| + |b|
  {
    if a != [] && b != [] {
      LcsBounded(a[1..], b[1..]);
      LcsBounded(a[1..], b);
      LcsBounded(a, b[1..]);
    }
  }

  /** No script between two texts keeps more lines than their LCS. */
  lemma {:induction false} NoScriptKeepsMore(ops: seq<Op>)
    ensures Kept(ops) <= Lcs(Old(ops), New(ops))
  {
    if ops != [] {
      NoScriptKeepsMore(ops[1..]);
      var o, n := Old(ops), New(ops);
      LcsSteps(o, n);
      match ops[0]
      case Ctx(_) => assert o[1..] == Old(ops[1..]) && n[1..] == New(ops[1..]);
      case Del(_) => assert o[1..] == Old(ops[1..]) && n == New(ops[1..]);
      case Add(_) => assert o == Old(ops[1..]) && n[1..] == New(ops[1..]);
    }
  }

  lemma {:induction false} LcsCommonHead(p: seq<Line>, a: seq<Line>, b: seq<Line>)
    ensures Lcs(p + a, p + b) == |p| + Lcs(a, b)
  {
    if p == [] {
      assert p + a == a && p + b == b;
    } else {
      assert (p + a)[1..] == p[1..] + a && (p + b)[1..] == p[1..] + b;
      LcsCommonHead(p[1..], a, b);
    }
  }

  lemma {:induction false} LcsOfOne(x: Line, b: seq<Line>)
    ensures Lcs([x], b + [x]) == 1 == Lcs(b + [x], [x])
  {
    if b == [] {
      assert b + [x] == [x];
    } else {
      assert (b + [x])[1..] == b[1..] + [x];
      LcsOfOne(x, b[1..]);
      LcsBounded([x], b + [x]);
      LcsBounded(b + [x], [x]);
    }
  }

  lemma {:induction false} LcsCommonLast(a: seq<Line>, b: seq<Line>, x: Line)
    ensures Lcs(a + [x], b + [x]) == Lcs(a, b) + 1
    decreases |a| + |b|
  {
    if a == [] {
      assert a + [x] == [x];
      LcsOfOne(x, b);
    } else if b == [] {
      assert b + [x] == [x];
      LcsOfOne(x, a);
    } else {
      assert (a + [x])[1..] == a[1..] + [x] && (b + [x])[1..] == b[1..] + [x];
      LcsCommonLast(a[1..], b[1..], x);
      LcsCommonLast(a[1..], b, x);
      LcsCommonLast(a, b[1..], x);
    }
  }

  lemma {:induction false} LcsCommonTail(a: seq<Line>, b: seq<Line>, q: seq<Line>)
    ensures Lcs(a + q, b + q) == Lcs(a, b) + |q|
    decreases |q|
  {
    if q == [] {
      assert a + q == a && b + q == b;
    } else {
      assert a + q == (a + [q[0]]) + q[1..] && b + q == (b + [q[0]]) + q[1..];
      LcsCommonTail(a + [q[0]], b + [q[0]], q[1..]);
      LcsCommonLast(a, b, q[0]);
    }
  }

  // ---------- the walk ----------

  lemma {:induction false} WalkIsScript(a: seq<Line>, b: seq<Line>)
    ensures Old(Walk(a, b)) == a && New(Walk(a, b)) == b && Kept(Walk(a, b)) == Lcs(a, b)
    decreases |a| + |b|
  {
    BlockScripts(a);
    BlockScripts(b);
    if a != [] && b != [] {
      assert a == [a[0]] + a[1..] && b == [b[0]] + b[1..];
      if a[0] == b[0] {
        WalkIsScript(a[1..], b[1..]);
      } else if Lcs(a[1..], b) >= Lcs(a, b[1..]) {
        WalkIsScript(a[1..], b);
      } else {
        WalkIsScript(a, b[1..]);
      }
    }
  }

  /** Keeping comes before deleting, deleting before inserting. */
  function Rank(op: Op): nat {
    match op case Ctx(_) => 0 case Del(_) => 1 case Add(_) => 2
  }

  /** Where the scripts first differ, x goes first. */
  predicate NotLater(x: seq<Op>, y: seq<Op>) {
    x == [] || (y != [] && if x[0] == y[0] then NotLater(x[1..], y[1..]) else Rank(x[0]) < Rank(y[0]))
  }

  ghost predicate IsOptimal(ops: seq<Op>, a: seq<Line>, b: seq<Line>) {
    Old(ops) == a && New(ops) == b && Kept(ops) == Lcs(a, b)
  }

  /** What an optimal script leaves to its rest is optimal again. */
  lemma {:induction false} RestOptimal(ops: seq<Op>, a: seq<Line>, b: seq<Line>)
    requires IsOptimal(ops, a, b) && ops != []
    ensures match ops[0]
            case Ctx(l) => a != [] && b != [] && a[0] == b[0] == l && IsOptimal(ops[1..], a[1..], b[1..])
            case Del(l) => a != [] && a[0] == l && IsOptimal(ops[1..], a[1..], b) && Lcs(a[1..], b) == Lcs(a, b)
            case Add(l) => b != [] && b[0] == l && IsOptimal(ops[1..], a, b[1..]) && Lcs(a, b[1..]) == Lcs(a, b)
  {
    NoScriptKeepsMore(ops[1..]);
    LcsSteps(a, b);
    match ops[0]
    case Ctx(l) => assert a[1..] == Old(ops[1..]) && b[1..] == New(ops[1..]);
    case Del(l) => assert a[1..] == Old(ops[1..]) && b == New(ops[1..]);
    case Add(l) => assert a == Old(ops[1..]) && b[1..] == New(ops[1..]);
  }

  lemma {:induction false} WalkSteps(a: seq<Line>, b: seq<Line>)
    requires a != [] || b != []
    ensures var w := Walk(a, b);
            && w != []
            && (a != [] && b != [] && a[0] == b[0] ==> w == [Ctx(a[0])] + Walk(a[1..], b[1..]))
            && (a == [] ==> w == [Add(b[0])] + Walk(a, b[1..]))
            && (b == [] ==> w == [Del(a[0])] + Walk(a[1..], b))
            && (a != [] && b != [] && a[0] != b[0] ==>
                  if Lcs(a[1..], b) >= Lcs(a, b[1..]) then w == [Del(a[0])] + Walk(a[1..], b)
                  else w == [Add(b[0])] + Walk(a, b[1..]))
  {
    hide Lcs;
    if b == [] {
      assert Dels(a) == [Del(a[0])] + Dels(a[1..]);
    }
  }

  lemma {:induction false} NotLaterStep(op: Op, x: seq<Op>, y: seq<Op>)
    requires y != [] && (if op == y[0] then NotLater(x, y[1..]) else Rank(op) < Rank(y[0]))
    ensures NotLater([op] + x, y)
  {
    assert ([op] + x)[1..] == x;
  }

  /** Of all scripts that keep the most, the walk is the one that keeps first, then
      deletes first: at the first step where another optimal script parts from it,
      the walk's operation comes before the other's. */
  lemma {:induction false} WalkIsFirst(a: seq<Line>, b: seq<Line>, ops: seq<Op>)
    requires IsOptimal(ops, a, b)
    ensures NotLater(Walk(a, b), ops)
    decreases |ops|
  {
    hide Walk, Lcs, Old, New, Kept, NotLater;
    if ops == [] {
      NothingToDo(ops, a, b);
    } else {
      RestOptimal(ops, a, b);
      WalkSteps(a, b);
      LcsSteps(a, b);
      match ops[0]
      case Ctx(l) =>
        WalkIsFirst(a[1..], b[1..], ops[1..]);
        NotLaterStep(Ctx(l), Walk(a[1..], b[1..]), ops);
      case Del(l) =>
        if b != [] && a[0] == b[0] {
          NotLaterStep(Ctx(l), Walk(a[1..], b[1..]), ops);
        } else {
          WalkIsFirst(a[1..], b, ops[1..]);
          NotLaterStep(Del(l), Walk(a[1..], b), ops);
        }
      case Add(l) =>
        if a != [] && a[0] == b[0] {
          NotLaterStep(Ctx(l), Walk(a[1..], b[1..]), ops);
        } else if a != [] && Lcs(a[1..], b) >= Lcs(a, b[1..]) {
          NotLaterStep(Del(a[0]), Walk(a[1..], b), ops);
        } else {
          WalkIsFirst(a, b[1..], ops[1..]);
          NotLaterStep(Add(l), Walk(a, b[1..]), ops);
        }
    }
  }

  lemma {:induction false} NothingToDo(ops: seq<Op>, a: seq<Line>, b: seq<Line>)
    requires ops == [] && IsOptimal(ops, a, b)
    ensures NotLater(Walk(a, b), ops)
  {
  }

  lemma {:induction false} BlockIsScript(a: seq<Line>, b: seq<Line>)
    ensures Old(Dels(a) + Adds(b)) == a && New(Dels(a) + Adds(b)) == b && Kept(Dels(a) + Adds(b)) == 0
  {
    ScriptConcat(Dels(a), Adds(b));
    BlockScripts(a);
    BlockScripts(b);
  }

  /** Texts with nothing in common walk to the block itself. */
  lemma {:induction false} DisjointWalkIsBlock(a: seq<Line>, b: seq<Line>)
    requires Lcs(a, b) == 0
    ensures Walk(a, b) == Dels(a) + Adds(b)
  {
    if a != [] && b != [] {
      DisjointWalkIsBlock(a[1..], b);
      assert Dels(a) + Adds(b) == [Del(a[0])] + (Dels(a[1..]) + Adds(b));
    }
  }

  // ---------- the trimmed head and tail ----------

  lemma {:induction false} CommonHeadIs(a: seq<Line>, b: seq<Line>)
    ensures a[..CommonHead(a, b)] == b[..CommonHead(a, b)]
  {
    if a != [] && b != [] && a[0] == b[0] {
      CommonHeadIs(a[1..], b[1..]);
      var h := CommonHead(a, b);
      assert a[..h] == [a[0]] + a[1..][..h - 1] && b[..h] == [b[0]] + b[1..][..h - 1];
    }
  }

  lemma {:induction false} CommonTailIs(a: seq<Line>, b: seq<Line>)
    ensures a[|a| - CommonTail(a, b)..] == b[|b| - CommonTail(a, b)..]
  {
    if a != [] && b != [] && a[|a| - 1] == b[|b| - 1] {
      var x, y := a[..|a| - 1], b[..|b| - 1];
      CommonTailIs(x, y);
      var e := CommonTail(x, y);
      assert a[|a| - e - 1..] == x[|x| - e..] + [a[|a| - 1]];
      assert b[|b| - e - 1..] == y[|y| - e..] + [b[|b| - 1]];
    }
  }

  /** Both texts are the shared head, their own middle, and the shared tail. */
  lemma {:induction false} Trimmed(a: seq<Line>, b: seq<Line>)
    ensures var p, q := a[..Head(a, b)], a[|a| - Tail(a, b)..];
            a == p + MidA(a, b) + q && b == p + MidB(a, b) + q
  {
    hide CommonHead, CommonTail;
    var h, e := Head(a, b), Tail(a, b);
    CommonHeadIs(a, b);
    CommonTailIs(a[h..], b[h..]);
    ThreeParts(a, h, e);
    ThreeParts(b, h, e);
  }

  lemma {:induction false} HeadStops(a: seq<Line>, b: seq<Line>)
    ensures var h := CommonHead(a, b); h < |a| && h < |b| ==> a[h] != b[h]
  {
    if a != [] && b != [] && a[0] == b[0] {
      HeadStops(a[1..], b[1..]);
    }
  }

  lemma {:induction false} TailStops(a: seq<Line>, b: seq<Line>)
    ensures var e := CommonTail(a, b); e < |a| && e < |b| ==> a[|a| - 1 - e] != b[|b| - 1 - e]
  {
    if a != [] && b != [] && a[|a| - 1] == b[|b| - 1] {
      TailStops(a[..|a| - 1], b[..|b| - 1]);
    }
  }

  /** Nothing more could be trimmed: where both middles hold a line, they differ in
      their first and in their last one. */
  lemma {:induction false} TrimMaximal(a: seq<Line>, b: seq<Line>)
    ensures var x, y := MidA(a, b), MidB(a, b);
            x != [] && y != [] ==> x[0] != y[0] && x[|x| - 1] != y[|y| - 1]
  {
    hide CommonHead, CommonTail;
    var h := Head(a, b);
    HeadStops(a, b);
    TailStops(a[h..], b[h..]);
  }

  /** Over the cap the whole old middle leaves, then the whole new one arrives. */
  lemma {:induction false} OverCapBlock(a: seq<Line>, b: seq<Line>, cap: nat)
    requires |MidA(a, b)| * |MidB(a, b)| > cap
    ensures Kept(Align(a, b, cap)) == Head(a, b) + Tail(a, b)
    ensures Align(a, b, cap) ==
            Ctxs(a[..Head(a, b)]) + Dels(MidA(a, b)) + Adds(MidB(a, b)) + Ctxs(b[|b| - Tail(a, b)..])
  {
    hide CommonHead, CommonTail, Walk, Lcs, Ctxs, Dels, Adds;
    var x, y := MidA(a, b), MidB(a, b);
    AlignReconstructs(a, b, cap);
    MiddleIsScript(x, y, cap);
    CommonTailIs(a[Head(a, b)..], b[Head(a, b)..]);
    ThreeParts(a, Head(a, b), Tail(a, b));
    ThreeParts(b, Head(a, b), Tail(a, b));
  }

  lemma {:induction false} ThreeParts(a: seq<Line>, h: nat, e: nat)
    requires h + e <= |a|
    ensures a == a[..h] + a[h..|a| - e] + a[|a| - e..]
    ensures a[h..][|a[h..]| - e..] == a[|a| - e..]
  {
  }

  lemma {:induction false} MiddleIsScript(a: seq<Line>, b: seq<Line>, cap: nat)
    ensures Old(Middle(a, b, cap)) == a && New(Middle(a, b, cap)) == b
    ensures Kept(Middle(a, b, cap)) == if |a| * |b| > cap then 0 else Lcs(a, b)
  {
    WalkIsScript(a, b);
    BlockIsScript(a, b);
  }

  /** In every branch the alignment reconstructs both texts. */
  lemma {:induction false} AlignReconstructs(a: seq<Line>, b: seq<Line>, cap: nat)
    ensures Old(Align(a, b, cap)) == a && New(Align(a, b, cap)) == b
    ensures Kept(Align(a, b, cap)) == Head(a, b) + Tail(a, b) + Kept(Middle(MidA(a, b), MidB(a, b), cap))
  {
    hide Lcs, Walk, Middle, CommonHead, CommonTail;
    var p, q, m := a[..Head(a, b)], a[|a| - Tail(a, b)..], Middle(MidA(a, b), MidB(a, b), cap);
    BlockScripts(p);
    BlockScripts(q);
    MiddleIsScript(MidA(a, b), MidB(a, b), cap);
    ScriptConcat(Ctxs(p), m);
    ScriptConcat(Ctxs(p) + m, Ctxs(q));
    Trimmed(a, b);
  }

  /** Trimming loses nothing: the whole texts' LCS is head, middle's LCS, tail. */
  lemma {:induction false} TrimKeepsLcs(a: seq<Line>, b: seq<Line>)
    ensures Lcs(a, b) == Head(a, b) + Lcs(MidA(a, b), MidB(a, b)) + Tail(a, b)
  {
    hide Lcs, CommonHead, CommonTail;
    var p, q := a[..Head(a, b)], a[|a| - Tail(a, b)..];
    Trimmed(a, b);
    LcsCommonTail(p + MidA(a, b), p + MidB(a, b), q);
    LcsCommonHead(p, MidA(a, b), MidB(a, b));
  }

  /** A script's size is fixed by its texts and what it keeps. */
  lemma {:induction false} CostOf(ops: seq<Op>)
    ensures Cost(ops) == |Old(ops)| + |New(ops)| - 2 * Kept(ops)
  {
    if ops != [] { CostOf(ops[1..]); }
  }

  /** Under the cap the alignment is optimal for the whole texts: it keeps exactly
      their LCS, and no script between them deletes and inserts less. */
  lemma {:induction false} AlignOptimal(a: seq<Line>, b: seq<Line>, cap: nat, other: seq<Op>)
    requires |MidA(a, b)| * |MidB(a, b)| <= cap
    requires Old(other) == a && New(other) == b
    ensures Kept(Align(a, b, cap)) == Lcs(a, b)
    ensures Cost(Align(a, b, cap)) <= Cost(other)
  {
    hide Lcs, Align, Middle, Old, New, Kept, CommonHead, CommonTail, Cost;
    AlignReconstructs(a, b, cap);
    MiddleIsScript(MidA(a, b), MidB(a, b), cap);
    TrimKeepsLcs(a, b);
    NoScriptKeepsMore(other);
    CostOf(other);
    CostOf(Align(a, b, cap));
  }

  /** Two caps give the same alignment exactly when the middle falls on one side
      of both, or shares no line at all. */
  lemma {:induction false} CapsAgreeExact(a: seq<Line>, b: seq<Line>, low: nat, high: nat)
    requires low <= high
    ensures Align(a, b, low) == Align(a, b, high) <==>
            var cells := |MidA(a, b)| * |MidB(a, b)|; cells <= low || cells > high || Lcs(MidA(a, b), MidB(a, b)) == 0
  {
    hide Lcs, Walk, Old, New, Kept, CommonHead, CommonTail, Ctxs;
    var x, y := MidA(a, b), MidB(a, b);
    if low < |x| * |y| <= high {
      WalkIsScript(x, y);
      BlockIsScript(x, y);
      if Lcs(x, y) == 0 {
        DisjointWalkIsBlock(x, y);
      } else if Align(a, b, low) == Align(a, b, high) {
        AlignReconstructs(a, b, low);
        AlignReconstructs(a, b, high);
        assert false;
      }
    }
  }
}
