/** The hierarchy read back from the flattened order's levels alone, and the view
    whose keys walk it inside the seated prefix. */
module TreeWalk {
  import opened Basics
  import opened TreeOrder

  const PAGE := 400

  /** j is the nearest row before i with a smaller level. */
  ghost predicate IsNearestShallower(o: seq<Node>, i: nat, j: nat) {
    && j < i < |o|
    && o[j].level < o[i].level
    && forall k | j < k < i :: o[k].level >= o[i].level
  }

  function FirstShown(ns: seq<Node>, g: Gate): Option<Node> {
    if ns == [] then None else if g.Shows(ns[0]) then Some(ns[0]) else FirstShown(ns[1..], g)
  }

  lemma {:induction false} FlatLevels(ns: seq<Node>, g: Gate, d: nat, i: nat)
    requires Levelled(ns, d) && i < |FlatAll(ns, g)|
    ensures FlatAll(ns, g)[i].level >= d
    ensures FlatAll(ns, g)[i].level == d ==> FlatAll(ns, g)[i] in ns
    decreases ns
  {
    var head := Flat(ns[0], g);
    if i >= |head| {
      FlatLevels(ns[1..], g, d, i - |head|);
    } else if i > 0 {
      FlatLevels(ns[0].children, g, d + 1, i - 1);
    }
  }

  /** Nearest-shallower survives a shift to another window of the order. */
  lemma {:induction false} NearestShifts(a: seq<Node>, b: seq<Node>, c: seq<Node>, i: nat, j: nat)
    requires IsNearestShallower(b, i, j)
    ensures IsNearestShallower(a + b + c, |a| + i, |a| + j)
  {
    var o := a + b + c;
    forall k | |a| + j < k < |a| + i
      ensures o[k].level >= o[|a| + i].level
    {
      assert o[k] == b[k - |a|];
    }
  }

  lemma {:induction false} FlatSplit(ns: seq<Node>, g: Gate, i: nat)
    requires i < |FlatAll(ns, g)|
    ensures ns != [] && FlatAll(ns, g) == Flat(ns[0], g) + FlatAll(ns[1..], g)
    ensures Flat(ns[0], g) != [] ==> Flat(ns[0], g)[0] == ns[0]
    ensures 0 < i < |Flat(ns[0], g)| ==> Flat(ns[0], g) == [ns[0]] + FlatAll(ns[0].children, g)
  {
  }

  /** A child row directly below its parent's row: everything between is deeper. */
  lemma {:induction false} DirectChild(n: Node, kids: seq<Node>, rest: seq<Node>, g: Gate, d: nat, i: nat)
    requires n.level == d && Levelled(n.children, d + 1) && kids == FlatAll(n.children, g)
    requires 0 < i <= |kids| && kids[i - 1].level == d + 1
    ensures IsNearestShallower([n] + kids + rest, i, 0)
    ensures kids[i - 1] in n.children
  {
    hide FlatAll, Levelled;
    var o := [n] + kids + rest;
    FlatLevels(n.children, g, d + 1, i - 1);
    forall k | 0 < k < i
      ensures o[k].level >= o[i].level
    {
      FlatLevels(n.children, g, d + 1, k - 1);
    }
  }

  /** Below the top level the nearest preceding row with a smaller level is the
      row's parent. */
  lemma {:induction false} ClimbFindsParent(ns: seq<Node>, g: Gate, d: nat, i: nat) returns (j: nat)
    requires Levelled(ns, d) && i < |FlatAll(ns, g)| && FlatAll(ns, g)[i].level > d
    ensures IsNearestShallower(FlatAll(ns, g), i, j)
    ensures FlatAll(ns, g)[i] in FlatAll(ns, g)[j].children
    decreases ns
  {
    hide FlatAll, Flat, IsNearestShallower;
    FlatSplit(ns, g, i);
    var n := ns[0];
    var head, rest, kids := Flat(n, g), FlatAll(ns[1..], g), FlatAll(n.children, g);
    if i >= |head| {
      var j' := ClimbFindsParent(ns[1..], g, d, i - |head|);
      NearestShifts(head, rest, [], i - |head|, j');
      NearestInside(rest, i - |head|, j');
      assert head + rest + [] == FlatAll(ns, g);
      j := |head| + j';
    } else {
      assert FlatAll(ns, g) == [n] + kids + rest;
      FlatLevels(n.children, g, d + 1, i - 1);
      if kids[i - 1].level == d + 1 {
        DirectChild(n, kids, rest, g, d, i);
        j := 0;
      } else {
        var j' := ClimbFindsParent(n.children, g, d + 1, i - 1);
        NearestShifts([n], kids, rest, i - 1, j');
        NearestInside(kids, i - 1, j');
        j := 1 + j';
      }
    }
  }

  lemma {:induction false} NearestInside(o: seq<Node>, i: nat, j: nat)
    requires IsNearestShallower(o, i, j)
    ensures j < i < |o|
  {
  }

  lemma {:induction false} FlatAllHead(ns: seq<Node>, g: Gate)
    ensures FirstShown(ns, g) == if FlatAll(ns, g) == [] then None else Some(FlatAll(ns, g)[0])
    decreases ns
  {
    if ns != [] && !g.Shows(ns[0]) {
      FlatAllHead(ns[1..], g);
      assert Flat(ns[0], g) + FlatAll(ns[1..], g) == FlatAll(ns[1..], g);
    }
  }

  /** The next row is deeper exactly when the row is open with a shown child, and
      then it is the first of those. */
  lemma {:induction false} NextIsFirstChild(ns: seq<Node>, g: Gate, d: nat, i: nat)
    requires Levelled(ns, d) && i < |FlatAll(ns, g)|
    ensures var o := FlatAll(ns, g);
            var deeper := i + 1 < |o| && o[i + 1].level > o[i].level;
            && (deeper <==> g.Opens(o[i]) && FirstShown(o[i].children, g).Some?)
            && (deeper ==> FirstShown(o[i].children, g) == Some(o[i + 1]))
    decreases ns
  {
    var n := ns[0];
    var o, head, rest, kids := FlatAll(ns, g), Flat(n, g), FlatAll(ns[1..], g), FlatAll(n.children, g);
    assert o == head + rest;
    if i >= |head| {
      NextIsFirstChild(ns[1..], g, d, i - |head|);
    } else if i == 0 {
      FlatAllHead(n.children, g);
      if g.Opens(n) && kids != [] {
        FlatLevels(n.children, g, d + 1, 0);
      } else if rest != [] {
        FlatHeadLevel(ns[1..], g, d);
      }
    } else {
      assert o[i] == kids[i - 1];
      NextIsFirstChild(n.children, g, d + 1, i - 1);
      FlatLevels(n.children, g, d + 1, i - 1);
      if i == |head| - 1 && rest != [] {
        FlatHeadLevel(ns[1..], g, d);
      }
    }
  }

  lemma {:induction false} FlatHeadLevel(ns: seq<Node>, g: Gate, d: nat)
    requires Levelled(ns, d) && FlatAll(ns, g) != []
    ensures FlatAll(ns, g)[0].level == d
    decreases ns
  {
    if !g.Shows(ns[0]) {
      FlatHeadLevel(ns[1..], g, d);
      assert Flat(ns[0], g) + FlatAll(ns[1..], g) == FlatAll(ns[1..], g);
    }
  }

  // ---------- loading ----------

  /** A row's children: already there, or fetched. */
  datatype Load = Already | Fails | Brings(kids: seq<Node>)

  /** The forest with the children of one node replaced. */
  function Grow(ns: seq<Node>, id: string, kids: seq<Node>): seq<Node>
    decreases ns
  {
    if ns == [] then []
    else
      var n := ns[0];
      [n.(children := if n.id == id then kids else Grow(n.children, id, kids))] + Grow(ns[1..], id, kids)
  }

  lemma {:induction false} RowLoaded(ns: seq<Node>, g: Gate, n: Node)
    requires n in FlatAll(ns, g)
    ensures n in Nodes(ns)
    decreases ns
  {
    if n in FlatAll(ns[1..], g) {
      RowLoaded(ns[1..], g, n);
    } else if n != ns[0] {
      RowLoaded(ns[0].children, g, n);
    }
  }

  lemma {:induction false} OneLevel(ns: seq<Node>, n: Node)
    requires DistinctIds(Nodes(ns)) && n in Nodes(ns)
    ensures StandsAt(ns, n.id, n.level)
  {
    forall m | m in Nodes(ns) && m.id == n.id
      ensures m.level == n.level
    {
      var i :| 0 <= i < |Nodes(ns)| && Nodes(ns)[i] == n;
      var j :| 0 <= j < |Nodes(ns)| && Nodes(ns)[j] == m;
      assert i == j;
    }
  }

  ghost predicate StandsAt(ns: seq<Node>, id: string, level: nat) {
    forall m | m in Nodes(ns) && m.id == id :: m.level == level
  }

  lemma {:induction false} StandsBelow(ns: seq<Node>, id: string, level: nat)
    requires ns != [] && StandsAt(ns, id, level)
    ensures StandsAt(ns[0].children, id, level) && StandsAt(ns[1..], id, level)
    ensures ns[0].id == id ==> ns[0].level == level
  {
    assert ns[0] in Nodes(ns);
    assert forall m | m in Nodes(ns[0].children) :: m in Nodes(ns);
    assert forall m | m in Nodes(ns[1..]) :: m in Nodes(ns);
  }

  /** Children built one level below the node they are for keep the levels. */
  lemma {:induction false} GrowKeepsLevels(ns: seq<Node>, id: string, kids: seq<Node>, level: nat, d: nat)
    requires Levelled(ns, d) && Levelled(kids, level + 1) && StandsAt(ns, id, level)
    ensures Levelled(Grow(ns, id, kids), d)
    decreases ns
  {
    hide StandsAt;
    if ns != [] {
      StandsBelow(ns, id, level);
      GrowKeepsLevels(ns[0].children, id, kids, level, d + 1);
      GrowKeepsLevels(ns[1..], id, kids, level, d);
    }
  }

  // ---------- the view ----------

  function PageUp(n: nat): nat {
    (n + PAGE - 1) / PAGE * PAGE
  }

  /** n rows end a page, or are all. */
  predicate PageEnd(n: nat, all: nat) {
    n == all || (n < all && n % PAGE == 0)
  }

  /** The first row of the last page of n rows. */
  function LastPageStart(n: nat): nat {
    if n == 0 then 0 else (n - 1) / PAGE * PAGE
  }

  lemma {:induction false} PageUpIs(n: nat)
    requires n > 0
    ensures PageUp(n) >= n && PageUp(n) % PAGE == 0 && PageUp(n) > 0
    ensures forall m: nat | 0 < m <= PageUp(n) :: LastPageStart(m) < n
  {
    var q := (n + PAGE - 1) / PAGE;
    assert q * PAGE >= n && (q - 1) * PAGE < n;
    forall m: nat | 0 < m <= PageUp(n)
      ensures LastPageStart(m) < n
    {
      assert (m - 1) / PAGE <= q - 1;
    }
  }

  function IndexOf(o: seq<Node>, id: string): (i: Option<nat>)
    ensures i.Some? ==> i.value < |o| && o[i.value].id == id
    ensures i.None? ==> forall k | 0 <= k < |o| :: o[k].id != id
  {
    if o == [] then None
    else if o[0].id == id then Some(0)
    else match IndexOf(o[1..], id) case None => None case Some(k) => Some(k + 1)
  }

  class TreeView {
    var roots: seq<Node>
    var filter: Option<string -> bool>
    var expanded: set<string>
    var folded: set<string>
    var visible: set<string>
    var order: seq<Node>
    var seated: seq<Node>
    var walkId: string
    var currentId: string

    function CurrentGate(): Gate
      reads this
    {
      if filter.Some? then Filtered(visible, folded) else Plain(expanded)
    }

    /** The forest the tree builds: distinct ids, children one level down. */
    ghost predicate Valid()
      reads this
    {
      && DistinctIds(Nodes(roots)) && Levelled(roots, 0)
      && order == FlatAll(roots, CurrentGate())
      && seated <= order
    }

    constructor ()
      ensures Valid() && order == []
    {
      roots, filter, expanded, folded, visible := [], None, {}, {}, {};
      order, seated, walkId, currentId := [], [], "", "";
    }

    /** computeVisibility's recursion: the verdict on a list of siblings, every
        child visited whatever its elder siblings answered. */
    static method Visit(ns: seq<Node>, f: string -> bool, vis: set<string>) returns (any: bool, out: set<string>)
      ensures any == AnyMatch(ns, f)
      ensures out == vis + Visible(ns, f)
      decreases ns
    {
      any, out := false, vis;
      var i := 0;
      while i < |ns|
        invariant 0 <= i <= |ns|
        invariant AnyMatch(ns, f) == (any || AnyMatch(ns[i..], f))
        invariant vis + Visible(ns, f) == out + Visible(ns[i..], f)
      {
        var n := ns[i];
        assert ns[i..][1..] == ns[i + 1..] && ns[i..][0] == n;
        var v := f(n.name);
        var below, got := Visit(n.children, f, out);
        v := v || below;
        out := if v then got + {n.id} else got;
        any := any || v;
        i := i + 1;
      }
    }

    /** How many rows a render seats: one page, or up to the end of the page that
        holds row i. */
    static method FirstSeat(all: nat, i: nat) returns (win: nat)
      requires all == 0 || i < all
      ensures win <= all && PageEnd(win, all) && LastPageStart(win) <= i
      ensures win >= Min(all, PAGE) && (all > 0 ==> i < win)
    {
      PageUpIs(i + 1);
      win := Min(all, PAGE);
      if all > 0 && i >= win {
        win := Min(all, PageUp(i + 1));
      }
    }

    /** render's model side: the order rebuilt, the first page seated, the current
        row always inside it. */
    method Render()
      requires DistinctIds(Nodes(roots)) && Levelled(roots, 0)
      modifies this`visible, this`order, this`seated
      ensures Valid()
      ensures filter.Some? ==> visible == Visible(roots, filter.value)
      ensures |seated| >= Min(|order|, PAGE)
      ensures IndexOf(order, currentId).Some? ==> IndexOf(order, currentId).value < |seated|
      ensures PageEnd(|seated|, |order|)
      ensures var ci := IndexOf(order, currentId);
              LastPageStart(|seated|) <= if ci.Some? then ci.value else 0
    {
      hide PageEnd, LastPageStart;
      if filter.Some? {
        var _, vis := Visit(roots, filter.value, {});
        visible := vis;
      }
      order := FlatAll(roots, CurrentGate());
      var ci := IndexOf(order, currentId);
      var win := FirstSeat(|order|, if ci.Some? then ci.value else 0);
      seated := order[..win];
    }

    /** Seats at least n rows, append-only, on a page boundary. */
    method Ensure(n: nat)
      requires Valid()
      modifies this`seated
      ensures Valid() && old(seated) <= seated
      ensures |seated| >= Min(n, |order|)
      ensures seated == old(seated) || (PageEnd(|seated|, |order|) && LastPageStart(|seated|) < n)
      ensures n <= |old(seated)| ==> seated == old(seated)
    {
      if n <= |seated| {
        return;
      }
      PageUpIs(n);
      var target := Min(|order|, PageUp(n));
      if target <= |seated| {
        return;
      }
      var i := |seated|;
      while i < target
        invariant |old(seated)| <= i <= target <= |order| && seated == order[..i] && old(seated) <= seated
      {
        seated := seated + [order[i]];
        i := i + 1;
      }
    }

    /** ArrowLeft: fold an open row, else climb to the parent of a closed one; a
        top row stays. The climb reads levels only. */
    method ArrowLeft(i: nat)
      requires Valid() && i < |seated| && walkId == seated[i].id
      modifies this
      ensures Valid() && roots == old(roots) && filter == old(filter)
      ensures var n := old(seated[i]);
              if old(CurrentGate()).Opens(n) then
                && !CurrentGate().Opens(n) && walkId == old(walkId)
                && (filter.Some? ==> folded == old(folded) + {n.id} && expanded == old(expanded))
                && (filter.None? ==> expanded == old(expanded) - {n.id} && folded == old(folded))
              else
                && order == old(order) && seated == old(seated)
                && expanded == old(expanded) && folded == old(folded)
                && (n.level == 0 ==> walkId == old(walkId))
                && (n.level > 0 ==> exists j | 0 <= j < i :: n in order[j].children && walkId == order[j].id)
    {
      var n := seated[i];
      if CurrentGate().Opens(n) {
        if filter.Some? {
          folded := folded + {n.id};
        } else {
          expanded := expanded - {n.id};
        }
        Render();
        return;
      }
      ghost var parent := 0;
      if n.level > 0 {
        parent := ClimbFindsParent(roots, CurrentGate(), 0, i);
      }
      var p := i;
      while p > 0
        invariant 0 <= p <= i && walkId == old(walkId)
        invariant forall k | p <= k < i :: seated[k].level >= n.level
        decreases p
      {
        p := p - 1;
        if seated[p].level < n.level {
          assert p == parent;
          walkId := seated[p].id;
          return;
        }
      }
    }

    /** ArrowRight on an open row: walk into the first shown child, growing the
        seat when it lies past it; a row without one keeps the walk. */
    method ArrowRightInto(i: nat)
      requires Valid() && i < |seated| && walkId == seated[i].id && CurrentGate().Opens(seated[i])
      modifies this`walkId, this`seated
      ensures Valid() && order == old(order) && old(seated) <= seated
      ensures match FirstShown(old(seated[i]).children, CurrentGate())
              case None => walkId == old(walkId)
              case Some(c) => i + 1 < |seated| && seated[i + 1] == c && walkId == c.id
    {
      var n := seated[i];
      NextIsFirstChild(roots, CurrentGate(), 0, i);
      Ensure(i + 2);
      if i + 1 < |seated| && seated[i + 1].level > n.level {
        walkId := seated[i + 1].id;
      }
    }

    /** ArrowRight on a closed row opens it and leaves the walk on it; a row not yet
        loaded gets its children first. A load that fails folds the row again -
        except under a filter, where it stays open - but either way the row is
        no longer among the folded ones. */
    method ArrowRightOpen(i: nat, load: Load)
      requires Valid() && i < |seated| && walkId == seated[i].id && !CurrentGate().Opens(seated[i])
      requires load.Brings? ==> Levelled(load.kids, seated[i].level + 1)
                                && DistinctIds(Nodes(Grow(roots, seated[i].id, load.kids)))
      modifies this
      ensures Valid() && walkId == old(walkId) && filter == old(filter)
      ensures roots == if load.Brings? then Grow(old(roots), old(seated[i]).id, load.kids) else old(roots)
      ensures CurrentGate().Opens(old(seated[i])) <==> filter.Some? || !load.Fails?
      ensures filter.None? && load.Fails? ==> order == old(order)
      ensures expanded == if filter.None? && !load.Fails? then old(expanded) + {old(seated[i]).id} else old(expanded)
      ensures folded == old(folded) - {old(seated[i]).id}
    {
      var n := seated[i];
      RowLoaded(roots, CurrentGate(), n);
      if filter.None? {
        expanded := expanded + {n.id};
      }
      folded := folded - {n.id};
      match load {
        case Already =>
        case Fails =>
          if filter.None? {
            expanded := expanded - {n.id};
          }
        case Brings(kids) =>
          OneLevel(roots, n);
          GrowKeepsLevels(roots, n.id, kids, n.level, 0);
          roots := Grow(roots, n.id, kids);
      }
      Render();
    }
  }
}
