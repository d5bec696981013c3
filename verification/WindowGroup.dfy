/** The window group's remembered stacking order and the raise that applies it. */
module WindowGroup {
  import opened Basics

  type Name = string

  function Names(ns: seq<Name>): set<Name> {
    set n | n in ns
  }

  /** The first occurrences, in order, of the names still remaining. */
  function Take(ns: seq<Name>, remaining: set<Name>): seq<Name> {
    if ns == [] then []
    else if ns[0] in remaining then [ns[0]] + Take(ns[1..], remaining - {ns[0]})
    else Take(ns[1..], remaining)
  }

  function Drop(ns: seq<Name>, n: Name): seq<Name> {
    if ns == [] then [] else (if ns[0] == n then [] else [ns[0]]) + Drop(ns[1..], n)
  }

  /** Remembered windows first, then the first-seen ones; the focused one on top. */
  function Merge(order: seq<Name>, live: seq<Name>, focused: Name): seq<Name> {
    (if focused in live then [focused] else []) + Drop(Take(order + live, Names(live)), focused)
  }

  // ---------- the loops ----------

  lemma {:induction false} DropConcat(x: seq<Name>, y: seq<Name>, n: Name)
    ensures Drop(x + y, n) == Drop(x, n) + Drop(y, n)
  {
    if x == [] {
      assert x + y == y;
    } else {
      assert (x + y)[1..] == x[1..] + y;
      DropConcat(x[1..], y, n);
    }
  }

  /** What is left of the remaining names once a list has been taken. */
  function Left(ns: seq<Name>, remaining: set<Name>): set<Name> {
    remaining - Names(ns)
  }

  lemma {:induction false} TakeConcat(x: seq<Name>, y: seq<Name>, remaining: set<Name>)
    ensures Take(x + y, remaining) == Take(x, remaining) + Take(y, Left(x, remaining))
  {
    if x == [] {
      assert x + y == y && Left(x, remaining) == remaining;
    } else {
      assert (x + y)[1..] == x[1..] + y && (x + y)[0] == x[0];
      if x[0] in remaining {
        TakeConcat(x[1..], y, remaining - {x[0]});
        assert Left(x[1..], remaining - {x[0]}) == Left(x, remaining);
      } else {
        TakeConcat(x[1..], y, remaining);
        assert Left(x[1..], remaining) == Left(x, remaining);
      }
    }
  }

  /** One of orderGroup's two passes: takes what remains, setting the focused
      window aside. */
  method Pass(ns: seq<Name>, remaining: map<Name, bool>, focused: Name, live0: bool)
    returns (out: seq<Name>, rest: map<Name, bool>, focusedLive: bool)
    ensures var open := set n | n in remaining && remaining[n];
            && out == Drop(Take(ns, open), focused)
            && (set n | n in rest && rest[n]) == Left(ns, open)
            && focusedLive == (live0 || focused in Take(ns, open))
  {
    ghost var open := set n | n in remaining && remaining[n];
    out, rest, focusedLive := [], remaining, live0;
    var i := 0;
    assert ns[..0] == [] && ns[..|ns|] == ns;
    while i < |ns|
      invariant 0 <= i <= |ns|
      invariant out == Drop(Take(ns[..i], open), focused)
      invariant (set n | n in rest && rest[n]) == Left(ns[..i], open)
      invariant focusedLive == (live0 || focused in Take(ns[..i], open))
    {
      var n := ns[i];
      assert ns[..i + 1] == ns[..i] + [n];
      TakeConcat(ns[..i], [n], open);
      TakeOne(n, Left(ns[..i], open));
      LeftStep(ns, i, open);
      if n in rest && rest[n] {
        assert n in (set x | x in rest && rest[x]);
        rest := rest[n := false];
        DropConcat(Take(ns[..i], open), [n], focused);
        assert [n][1..] == [];
        if n == focused {
          focusedLive := true;
        } else {
          out := out + [n];
        }
      } else {
        assert n !in (set x | x in rest && rest[x]);
        assert Take(ns[..i], open) + [] == Take(ns[..i], open);
      }
      i := i + 1;
    }
  }

  lemma {:induction false} TakeOne(n: Name, remaining: set<Name>)
    ensures Take([n], remaining) == if n in remaining then [n] else []
  {
    assert [n][1..] == [];
    assert Take([], remaining - {n}) == [];
  }

  lemma {:induction false} LeftStep(ns: seq<Name>, i: nat, open: set<Name>)
    requires i < |ns|
    ensures Left(ns[..i + 1], open) == Left(ns[..i], open) - {ns[i]}
  {
    assert forall n :: n in ns[..i + 1] <==> n in ns[..i] || n == ns[i];
  }

  /** The two passes together. */
  lemma {:induction false} MergeSplits(order: seq<Name>, live: seq<Name>, focused: Name)
    ensures var kept, joined := Take(order, Names(live)), Take(live, Left(order, Names(live)));
            && (focused in kept || focused in joined <==> focused in live)
            && Merge(order, live, focused) ==
               (if focused in live then [focused] else []) + (Drop(kept, focused) + Drop(joined, focused))
  {
    hide Take, Drop;
    TakeConcat(order, live, Names(live));
    DropConcat(Take(order, Names(live)), Take(live, Left(order, Names(live))), focused);
    TakesAll(order, Names(live));
    TakesAll(live, Left(order, Names(live)));
  }

  method OrderGroup(order: seq<Name>, live: seq<Name>, focused: Name) returns (out: seq<Name>)
    ensures out == Merge(order, live, focused)
  {
    hide Take, Drop, Merge, Left;
    var remaining := map n | n in live :: true;
    assert (set n | n in remaining && remaining[n]) == Names(live);
    var kept, rest, f1 := Pass(order, remaining, focused, false);
    var joined, _, f2 := Pass(live, rest, focused, f1);
    out := kept + joined;
    MergeSplits(order, live, focused);
    if f2 {
      out := [focused] + out;
    } else {
      assert [] + out == out;
    }
  }

  // ---------- one merge ----------

  predicate Distinct(ns: seq<Name>) {
    forall i, j | 0 <= i < j < |ns| :: ns[i] != ns[j]
  }

  /** Taking yields exactly the remaining names that occur, each once. */
  lemma {:induction false} TakesAll(ns: seq<Name>, remaining: set<Name>)
    ensures forall n :: n in Take(ns, remaining) <==> n in ns && n in remaining
    ensures Distinct(Take(ns, remaining))
  {
    if ns != [] {
      var rem := if ns[0] in remaining then remaining - {ns[0]} else remaining;
      TakesAll(ns[1..], rem);
      var rest := Take(ns[1..], rem);
      assert forall n :: n in ns <==> n == ns[0] || n in ns[1..];
      if ns[0] in remaining {
        assert ns[0] !in rest;
        assert forall i | 0 <= i < |rest| :: rest[i] in rest;
      }
    }
  }

  lemma {:induction false} DropsOne(ns: seq<Name>, n: Name)
    requires Distinct(ns)
    ensures forall m :: m in Drop(ns, n) <==> m in ns && m != n
    ensures Distinct(Drop(ns, n))
  {
    if ns != [] {
      assert forall i | 0 <= i < |ns[1..]| :: ns[1..][i] == ns[i + 1];
      DropsOne(ns[1..], n);
      var rest := Drop(ns[1..], n);
      assert forall m :: m in ns <==> m == ns[0] || m in ns[1..];
      assert ns[0] !in ns[1..];
      assert forall i | 0 <= i < |rest| :: rest[i] in rest;
    }
  }

  /** The order is a permutation of the live windows, the focused one on top. */
  lemma {:induction false} MergePermutes(order: seq<Name>, live: seq<Name>, focused: Name)
    ensures var out := Merge(order, live, focused);
            && Distinct(out)
            && (forall n :: n in out <==> n in live)
            && (focused in live ==> out[0] == focused)
  {
    hide Take, Drop;
    var all := Take(order + live, Names(live));
    TakesAll(order + live, Names(live));
    DropsOne(all, focused);
    var rest := Drop(all, focused);
    assert forall i | 0 <= i < |rest| :: rest[i] in rest;
  }

  /** a stands above b. */
  ghost predicate Above(ns: seq<Name>, a: Name, b: Name) {
    exists i, j | 0 <= i < j < |ns| :: ns[i] == a && ns[j] == b
  }

  lemma {:induction false} AboveInConcat(x: seq<Name>, y: seq<Name>, a: Name, b: Name)
    ensures a in x && b in y ==> Above(x + y, a, b)
    ensures Above(x, a, b) ==> Above(x + y, a, b)
    ensures Above(y, a, b) ==> Above(x + y, a, b)
  {
    if a in x && b in y {
      var i :| 0 <= i < |x| && x[i] == a;
      var j :| 0 <= j < |y| && y[j] == b;
      assert (x + y)[i] == a && (x + y)[|x| + j] == b;
    }
    if Above(x, a, b) {
      var i, j :| 0 <= i < j < |x| && x[i] == a && x[j] == b;
      assert (x + y)[i] == a && (x + y)[j] == b;
    }
    if Above(y, a, b) {
      var i, j :| 0 <= i < j < |y| && y[i] == a && y[j] == b;
      assert (x + y)[|x| + i] == a && (x + y)[|x| + j] == b;
    }
  }

  lemma {:induction false} DropKeepsAbove(ns: seq<Name>, n: Name, a: Name, b: Name)
    requires Above(ns, a, b) && a != n && b != n
    ensures Above(Drop(ns, n), a, b)
  {
    var i, j :| 0 <= i < j < |ns| && ns[i] == a && ns[j] == b;
    var rest := Drop(ns[1..], n);
    if i > 0 {
      assert ns[1..][i - 1] == a && ns[1..][j - 1] == b;
      DropKeepsAbove(ns[1..], n, a, b);
      AboveInConcat(if ns[0] == n then [] else [ns[0]], rest, a, b);
    } else {
      assert ns[1..][j - 1] == b;
      DropKeeps(ns[1..], n, b);
      AboveInConcat([a], rest, a, b);
    }
  }

  lemma {:induction false} DropKeeps(ns: seq<Name>, n: Name, m: Name)
    requires m in ns && m != n
    ensures m in Drop(ns, n)
  {
    if ns[0] != m {
      DropKeeps(ns[1..], n, m);
    }
  }

  lemma {:induction false} TakeKeepsAbove(ns: seq<Name>, remaining: set<Name>, a: Name, b: Name)
    requires Distinct(ns) && Above(ns, a, b) && a in remaining && b in remaining
    ensures Above(Take(ns, remaining), a, b)
  {
    var i, j :| 0 <= i < j < |ns| && ns[i] == a && ns[j] == b;
    var rem := if ns[0] in remaining then remaining - {ns[0]} else remaining;
    var rest := Take(ns[1..], rem);
    assert ns[1..][j - 1] == b;
    if i > 0 {
      assert ns[1..][i - 1] == a;
      assert ns[0] != a && ns[0] != b;
      TakeKeepsAbove(ns[1..], rem, a, b);
      AboveInConcat(if ns[0] in remaining then [ns[0]] else [], rest, a, b);
      if ns[0] !in remaining {
        assert [] + rest == rest;
      }
    } else {
      TakesAll(ns[1..], rem);
      AboveInConcat([a], rest, a, b);
    }
  }

  /** One focus event: the focused window rises above every other live one; two
      remembered windows keep their order; a first-seen one joins below, and two of
      those keep the order they were created in. */
  lemma {:induction false} MergeOrders(order: seq<Name>, live: seq<Name>, focused: Name, a: Name, b: Name)
    requires Distinct(order) && a in live && b in live && a != b && b != focused
    ensures a == focused || (a in order && b !in order) || Above(order, a, b)
            || (a !in order && b !in order && Distinct(live) && Above(live, a, b)) ==>
              Above(Merge(order, live, focused), a, b)
  {
    hide Take, Drop;
    var names := Names(live);
    var all := Take(order + live, names);
    var top := if focused in live then [focused] else [];
    TakesAll(order + live, names);
    DropsOne(all, focused);
    assert b in order + live;
    AboveInConcat(top, Drop(all, focused), a, b);
    if a != focused && ((a in order && b !in order) || Above(order, a, b)
                        || (a !in order && b !in order && Distinct(live) && Above(live, a, b))) {
      TakeConcat(order, live, names);
      var kept, joined := Take(order, names), Take(live, Left(order, names));
      TakesAll(order, names);
      TakesAll(live, Left(order, names));
      AboveInConcat(kept, joined, a, b);
      if Above(order, a, b) {
        TakeKeepsAbove(order, names, a, b);
      } else if a !in order && b !in order {
        TakeKeepsAbove(live, Left(order, names), a, b);
      }
      DropKeepsAbove(all, focused, a, b);
    }
  }

  // ---------- runs of focus events ----------

  datatype Focus = Focus(live: seq<Name>, focused: Name)

  function Run(order: seq<Name>, es: seq<Focus>): seq<Name>
    decreases |es|
  {
    if es == [] then order else Run(Merge(order, es[0].live, es[0].focused), es[1..])
  }

  predicate StaysLive(es: seq<Focus>, a: Name) {
    forall e | e in es :: a in e.live
  }

  predicate NeverFocused(es: seq<Focus>, b: Name) {
    forall e | e in es :: e.focused != b
  }

  lemma {:induction false} StaysAbove(order: seq<Name>, es: seq<Focus>, a: Name, b: Name)
    requires Distinct(order) && a != b && a in order && (b in order ==> Above(order, a, b))
    requires StaysLive(es, a) && NeverFocused(es, b)
    ensures Distinct(Run(order, es)) && a in Run(order, es)
    ensures b in Run(order, es) ==> Above(Run(order, es), a, b)
    decreases |es|
  {
    hide Merge;
    if es != [] {
      var e := es[0];
      assert e in es;
      var next := Merge(order, e.live, e.focused);
      MergePermutes(order, e.live, e.focused);
      if b in e.live {
        MergeOrders(order, e.live, e.focused, a, b);
      }
      StaysAbove(next, es[1..], a, b);
    }
  }

  /** Over any run, a window that was focused at some event and has been live ever
      since stands above every window not focused from that event on - closed and
      reopened ones, and ones first seen later, included. */
  lemma {:induction false} RecentFocusOnTop(order: seq<Name>, e: Focus, later: seq<Focus>, b: Name)
    requires e.focused in e.live && StaysLive(later, e.focused)
    requires b != e.focused && NeverFocused(later, b) && b in Run(order, [e] + later) && Distinct(order)
    ensures Above(Run(order, [e] + later), e.focused, b)
  {
    hide Merge;
    var es := [e] + later;
    assert es[1..] == later;
    var next := Merge(order, e.live, e.focused);
    MergePermutes(order, e.live, e.focused);
    if b in next {
      MergeOrders(order, e.live, e.focused, e.focused, b);
    }
    StaysAbove(next, later, e.focused, b);
  }

  // ---------- the raise ----------

  /** Raising tops a window within the OS stack (top first). */
  function RaiseOne(stack: seq<Name>, n: Name): seq<Name> {
    [n] + Drop(stack, n)
  }

  function DropAll(stack: seq<Name>, ns: seq<Name>): seq<Name> {
    if ns == [] then stack else Drop(DropAll(stack, ns[1..]), ns[0])
  }

  lemma {:induction false} DropAbsent(ns: seq<Name>, n: Name)
    requires n !in ns
    ensures Drop(ns, n) == ns
  {
    if ns != [] {
      DropAbsent(ns[1..], n);
    }
  }

  lemma {:induction false} DropAllIs(stack: seq<Name>, ns: seq<Name>, m: Name)
    requires Distinct(stack)
    ensures Distinct(DropAll(stack, ns))
    ensures m in DropAll(stack, ns) <==> m in stack && m !in ns
  {
    if ns != [] {
      DropAllIs(stack, ns[1..], m);
      DropsOne(DropAll(stack, ns[1..]), ns[0]);
      assert m in ns <==> m == ns[0] || m in ns[1..];
    }
  }

  class Group {
    var groupOrder: seq<Name>
    var stack: seq<Name>

    constructor (stack: seq<Name>)
      ensures groupOrder == [] && this.stack == stack
    {
      groupOrder, this.stack := [], stack;
    }

    /** Below two windows, or under a dialog, nothing is raised; otherwise the OS
        stack ends as the merged order on top of every other window's old place. */
    method RaiseWindowGroup(dialogBusy: bool, live: seq<Name>, focused: Name)
      modifies this
      ensures dialogBusy || |live| < 2 ==> groupOrder == old(groupOrder) && stack == old(stack)
      ensures !dialogBusy && |live| >= 2 ==>
                && groupOrder == Merge(old(groupOrder), live, focused)
                && stack == groupOrder + DropAll(old(stack), groupOrder)
    {
      hide Drop, DropAll, Merge;
      if dialogBusy || |live| < 2 {
        return;
      }
      groupOrder := OrderGroup(groupOrder, live, focused);
      MergePermutes(old(groupOrder), live, focused);
      var order := groupOrder;
      var i := |order|;
      DropAllNone(stack);
      assert order[i..] == [];
      while i > 0
        invariant 0 <= i <= |order| && groupOrder == order
        invariant stack == order[i..] + DropAll(old(stack), order[i..])
      {
        i := i - 1;
        RaiseStep(old(stack), order, i);
        stack := RaiseOne(stack, order[i]);
      }
      assert order[0..] == order;
    }
  }

  lemma {:induction false} DropAllNone(stack: seq<Name>)
    ensures DropAll(stack, []) == stack
  {
  }

  lemma {:induction false} RaiseStep(stack: seq<Name>, order: seq<Name>, i: nat)
    requires Distinct(order) && i < |order|
    ensures RaiseOne(order[i + 1..] + DropAll(stack, order[i + 1..]), order[i]) ==
            order[i..] + DropAll(stack, order[i..])
  {
    var tail := order[i + 1..];
    assert order[i] !in tail;
    DropConcat(tail, DropAll(stack, tail), order[i]);
    DropAbsent(tail, order[i]);
    assert order[i..] == [order[i]] + tail && order[i..][1..] == tail;
  }
}
