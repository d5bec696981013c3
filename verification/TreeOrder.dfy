/** The sidebar's flattened order: a forest laid out in preorder, gated by
    expansion or by a filter, with levels from which the hierarchy is read back. */
module TreeOrder {
  import opened Basics

  datatype Node = Node(id: string, name: string, level: nat, children: seq<Node>)

  /** What decides which rows stand: without a filter the expanded nodes open;
      under one only visible nodes show and all but the folded ones open. */
  datatype Gate = Plain(expanded: set<string>) | Filtered(visible: set<string>, folded: set<string>)
  {
    predicate Shows(n: Node) {
      Filtered? ==> n.id in visible
    }

    predicate Opens(n: Node) {
      if Filtered? then n.id !in folded else n.id in expanded
    }
  }

  function Flat(n: Node, g: Gate): seq<Node>
    decreases n, 0
  {
    if !g.Shows(n) then [] else [n] + (if g.Opens(n) then FlatAll(n.children, g) else [])
  }

  function FlatAll(ns: seq<Node>, g: Gate): seq<Node>
    decreases ns, 1
  {
    if ns == [] then [] else Flat(ns[0], g) + FlatAll(ns[1..], g)
  }

  /** Every loaded node, in preorder. */
  function Nodes(ns: seq<Node>): seq<Node>
    decreases ns
  {
    if ns == [] then [] else [ns[0]] + Nodes(ns[0].children) + Nodes(ns[1..])
  }

  /** A child stands one level below its parent, the way children are built. */
  predicate Levelled(ns: seq<Node>, d: nat)
    decreases ns
  {
    ns != [] ==> ns[0].level == d && Levelled(ns[0].children, d + 1) && Levelled(ns[1..], d)
  }

  // ---------- visibility ----------

  /** The label matches or some loaded descendant's does. */
  predicate HasMatch(n: Node, f: string -> bool)
    decreases n, 0
  {
    f(n.name) || AnyMatch(n.children, f)
  }

  predicate AnyMatch(ns: seq<Node>, f: string -> bool)
    decreases ns, 1
  {
    ns != [] && (HasMatch(ns[0], f) || AnyMatch(ns[1..], f))
  }

  /** The ids computeVisibility collects below a list of nodes. */
  function Visible(ns: seq<Node>, f: string -> bool): set<string>
    decreases ns
  {
    if ns == [] then {}
    else (if HasMatch(ns[0], f) then {ns[0].id} else {}) + Visible(ns[0].children, f) + Visible(ns[1..], f)
  }

  predicate DistinctIds(ns: seq<Node>) {
    forall i, j | 0 <= i < j < |ns| :: ns[i].id != ns[j].id
  }

  lemma {:induction false} VisibleIs(ns: seq<Node>, f: string -> bool, id: string)
    ensures id in Visible(ns, f) <==> exists m :: m in Nodes(ns) && m.id == id && HasMatch(m, f)
    decreases ns
  {
    if ns != [] {
      VisibleIs(ns[0].children, f, id);
      VisibleIs(ns[1..], f, id);
      assert forall m :: m in Nodes(ns) <==> m == ns[0] || m in Nodes(ns[0].children) || m in Nodes(ns[1..]);
    }
  }

  /** With distinct ids, a node is visible exactly when it or a loaded descendant matches. */
  lemma {:induction false} VisibleExact(roots: seq<Node>, f: string -> bool, m: Node)
    requires DistinctIds(Nodes(roots)) && m in Nodes(roots)
    ensures m.id in Visible(roots, f) <==> HasMatch(m, f)
  {
    VisibleIs(roots, f, m.id);
    if m.id in Visible(roots, f) {
      var k :| k in Nodes(roots) && k.id == m.id && HasMatch(k, f);
      var i :| 0 <= i < |Nodes(roots)| && Nodes(roots)[i] == k;
      var j :| 0 <= j < |Nodes(roots)| && Nodes(roots)[j] == m;
      assert i == j;
    }
  }

  lemma {:induction false} AnyMatchIs(ns: seq<Node>, f: string -> bool, m: Node)
    requires m in Nodes(ns) && HasMatch(m, f)
    ensures AnyMatch(ns, f)
    decreases ns
  {
    if m == ns[0] {
    } else if m in Nodes(ns[0].children) {
      AnyMatchIs(ns[0].children, f, m);
    } else {
      AnyMatchIs(ns[1..], f, m);
    }
  }

  // ---------- the reference order ----------

  /** A loaded node, and whether every strict ancestor of it is open. */
  datatype Entry = Entry(node: Node, reachable: bool)

  function Entries(ns: seq<Node>, g: Gate, above: bool): seq<Entry>
    decreases ns
  {
    if ns == [] then []
    else [Entry(ns[0], above)] + Entries(ns[0].children, g, above && g.Opens(ns[0])) + Entries(ns[1..], g, above)
  }

  function Pick(es: seq<Entry>, f: string -> bool): seq<Node> {
    if es == [] then []
    else (if es[0].reachable && HasMatch(es[0].node, f) then [es[0].node] else []) + Pick(es[1..], f)
  }

  function EntryNodes(es: seq<Entry>): seq<Node> {
    if es == [] then [] else [es[0].node] + EntryNodes(es[1..])
  }

  lemma {:induction false} EntryNodesConcat(x: seq<Entry>, y: seq<Entry>)
    ensures EntryNodes(x + y) == EntryNodes(x) + EntryNodes(y)
  {
    if x == [] {
      assert x + y == y;
    } else {
      assert (x + y)[1..] == x[1..] + y;
      EntryNodesConcat(x[1..], y);
    }
  }

  lemma {:induction false} PickConcat(x: seq<Entry>, y: seq<Entry>, f: string -> bool)
    ensures Pick(x + y, f) == Pick(x, f) + Pick(y, f)
  {
    if x == [] {
      assert x + y == y;
    } else {
      assert (x + y)[1..] == x[1..] + y;
      PickConcat(x[1..], y, f);
    }
  }

  /** The entries are the loaded nodes in preorder. */
  lemma {:induction false} EntriesAreNodes(ns: seq<Node>, g: Gate, above: bool)
    ensures EntryNodes(Entries(ns, g, above)) == Nodes(ns)
    decreases ns
  {
    if ns != [] {
      var inner := above && g.Opens(ns[0]);
      EntriesAreNodes(ns[0].children, g, inner);
      EntriesAreNodes(ns[1..], g, above);
      var first := [Entry(ns[0], above)];
      EntryNodesConcat(first + Entries(ns[0].children, g, inner), Entries(ns[1..], g, above));
      EntryNodesConcat(first, Entries(ns[0].children, g, inner));
    }
  }

  lemma {:induction false} PickThree(n: Node, above: bool, x: seq<Entry>, y: seq<Entry>, f: string -> bool)
    ensures Pick([Entry(n, above)] + x + y, f) ==
            (if above && HasMatch(n, f) then [n] else []) + Pick(x, f) + Pick(y, f)
  {
    PickConcat([Entry(n, above)] + x, y, f);
    PickConcat([Entry(n, above)], x, f);
    assert [Entry(n, above)][1..] == [];
  }

  /** Below a closed ancestor nothing is picked, and in a subtree without a match
      there is nothing to pick: skipping it drops no match. */
  lemma {:induction false} NothingToPick(ns: seq<Node>, g: Gate, f: string -> bool, above: bool)
    requires !above || !AnyMatch(ns, f)
    ensures Pick(Entries(ns, g, above), f) == []
    decreases ns
  {
    if ns != [] {
      var inner := above && g.Opens(ns[0]);
      NothingToPick(ns[0].children, g, f, inner);
      NothingToPick(ns[1..], g, f, above);
      PickThree(ns[0], above, Entries(ns[0].children, g, inner), Entries(ns[1..], g, above), f);
    }
  }

  ghost predicate ShowsMatches(ns: seq<Node>, g: Gate, f: string -> bool) {
    forall m | m in Nodes(ns) :: g.Shows(m) <==> HasMatch(m, f)
  }

  lemma {:induction false} FlatPicks(ns: seq<Node>, g: Gate, f: string -> bool)
    requires ShowsMatches(ns, g, f)
    ensures FlatAll(ns, g) == Pick(Entries(ns, g, true), f)
    decreases ns
  {
    if ns != [] {
      var n, open := ns[0], g.Opens(ns[0]);
      assert n in Nodes(ns);
      assert ShowsMatches(n.children, g, f) && ShowsMatches(ns[1..], g, f);
      FlatPicks(ns[1..], g, f);
      PickThree(n, true, Entries(n.children, g, open), Entries(ns[1..], g, true), f);
      if g.Shows(n) && open {
        FlatPicks(n.children, g, f);
      } else {
        NothingToPick(n.children, g, f, open);
      }
    }
  }

  lemma {:induction false} PickDistinct(es: seq<Entry>, f: string -> bool)
    requires DistinctIds(EntryNodes(es))
    ensures DistinctIds(Pick(es, f))
    ensures forall m | m in Pick(es, f) :: m in EntryNodes(es)
  {
    if es != [] {
      var all, rest := EntryNodes(es), EntryNodes(es[1..]);
      assert all[1..] == rest;
      assert forall i | 0 <= i < |rest| :: all[i + 1] == rest[i];
      PickDistinct(es[1..], f);
      var picked := Pick(es[1..], f);
      forall k | 0 <= k < |picked|
        ensures picked[k].id != es[0].node.id
      {
        assert picked[k] in picked;
        var i :| 0 <= i < |rest| && rest[i] == picked[k];
        assert all[i + 1] == rest[i] && all[0] == es[0].node;
      }
    }
  }

  /** Under a filter the flattened order is exactly the loaded nodes, in preorder,
      that match or have a matching loaded descendant and have no folded strict
      ancestor - each once. */
  lemma {:induction false} FilteredOrderExact(roots: seq<Node>, f: string -> bool, folded: set<string>)
    requires DistinctIds(Nodes(roots))
    ensures var g := Filtered(Visible(roots, f), folded);
            && FlatAll(roots, g) == Pick(Entries(roots, g, true), f)
            && EntryNodes(Entries(roots, g, true)) == Nodes(roots)
            && DistinctIds(FlatAll(roots, g))
  {
    hide FlatAll, Entries, Pick, EntryNodes, Visible, HasMatch;
    var g := Filtered(Visible(roots, f), folded);
    forall m | m in Nodes(roots)
      ensures g.Shows(m) <==> HasMatch(m, f)
    {
      VisibleExact(roots, f, m);
    }
    FlatPicks(roots, g, f);
    EntriesAreNodes(roots, g, true);
    PickDistinct(Entries(roots, g, true), f);
  }

  /** Without one it is the loaded nodes whose strict ancestors are all expanded. */
  lemma {:induction false} PlainOrderExact(roots: seq<Node>, expanded: set<string>)
    requires DistinctIds(Nodes(roots))
    ensures var g := Plain(expanded);
            && FlatAll(roots, g) == Pick(Entries(roots, g, true), _ => true)
            && EntryNodes(Entries(roots, g, true)) == Nodes(roots)
            && DistinctIds(FlatAll(roots, g))
  {
    hide FlatAll, Entries, Pick, EntryNodes;
    var g := Plain(expanded);
    var f: string -> bool := _ => true;
    assert forall m: Node :: HasMatch(m, f);
    FlatPicks(roots, g, f);
    EntriesAreNodes(roots, g, true);
    PickDistinct(Entries(roots, g, true), f);
  }
}
