/** How a folder view's rows come over the wire: each page of the provider's listing
    hands over its common prefixes first. The window's laws take the wire to follow the
    listing; here is exactly when it does, and what a cut inside a page costs. */
module Arrival {
  import opened Basics
  import opened Listing
  import opened WindowSpec
  import opened WindowSlices
  import opened KeyOrder

  /** Which rows the provider rolled up into common prefixes; a folder's own marker
      object may come among the contents instead. */
  type Rollup = Row -> bool

  function Prefixes(page: seq<Row>, f: Rollup): seq<Row> {
    if page == [] then [] else (if f(page[0]) then [page[0]] else []) + Prefixes(page[1..], f)
  }

  function Contents(page: seq<Row>, f: Rollup): seq<Row> {
    if page == [] then [] else (if f(page[0]) then [] else [page[0]]) + Contents(page[1..], f)
  }

  function Emit(page: seq<Row>, f: Rollup): seq<Row> {
    Prefixes(page, f) + Contents(page, f)
  }

  /** WalkDir over one page: a loop over the common prefixes, then one over the
      contents, folder markers among them. */
  method EmitPage(page: seq<Row>, f: Rollup) returns (out: seq<Row>)
    ensures out == Emit(page, f)
  {
    out := [];
    var i := 0;
    while i < |page|
      invariant 0 <= i <= |page| && Prefixes(page, f) == out + Prefixes(page[i..], f)
    {
      if f(page[i]) {
        out := out + [page[i]];
      }
      i := i + 1;
    }
    var files := EmitContents(page, f);
    out := out + files;
  }

  method EmitContents(page: seq<Row>, f: Rollup) returns (out: seq<Row>)
    ensures out == Contents(page, f)
  {
    out := [];
    var i := 0;
    while i < |page|
      invariant 0 <= i <= |page| && Contents(page, f) == out + Contents(page[i..], f)
    {
      if !f(page[i]) {
        out := out + [page[i]];
      }
      i := i + 1;
    }
  }

  function Flat(pages: seq<seq<Row>>): seq<Row> {
    if pages == [] then [] else pages[0] + Flat(pages[1..])
  }

  function Wire(pages: seq<seq<Row>>, f: Rollup): seq<Row> {
    if pages == [] then [] else Emit(pages[0], f) + Wire(pages[1..], f)
  }

  // ---------- when the wire follows the listing ----------

  /** No content row stands before a common prefix. */
  predicate PrefixesLead(page: seq<Row>, f: Rollup) {
    forall i, j | 0 <= i < j < |page| :: f(page[j]) ==> f(page[i])
  }

  lemma {:induction false} EmitSize(page: seq<Row>, f: Rollup)
    ensures |Emit(page, f)| == |page|
    ensures forall r | r in Prefixes(page, f) :: f(r) && r in page
    ensures forall r | r in Contents(page, f) :: !f(r) && r in page
    ensures forall r | r in page :: r in Emit(page, f)
  {
    if page != [] {
      EmitSize(page[1..], f);
      assert page == [page[0]] + page[1..];
    }
  }

  lemma {:induction false} LeadingEmits(page: seq<Row>, f: Rollup)
    requires PrefixesLead(page, f)
    ensures Emit(page, f) == page
  {
    if page != [] {
      var rest := page[1..];
      assert forall i | 0 <= i < |rest| :: rest[i] == page[i + 1];
      LeadingEmits(rest, f);
      if !f(page[0]) {
        forall i | 0 <= i < |rest|
          ensures !f(rest[i])
        {
          assert f(page[0]) || !f(page[i + 1]);
        }
        NoPrefixes(rest, f);
      }
    }
  }

  lemma {:induction false} NoPrefixes(page: seq<Row>, f: Rollup)
    requires forall i | 0 <= i < |page| :: !f(page[i])
    ensures Prefixes(page, f) == [] && Contents(page, f) == page
  {
    if page != [] {
      var rest := page[1..];
      assert forall i | 0 <= i < |rest| :: rest[i] == page[i + 1];
      NoPrefixes(rest, f);
    }
  }

  /** A page comes over the wire in listing order exactly when its
      prefixes lead. */
  lemma {:induction false} EmitExact(page: seq<Row>, f: Rollup)
    ensures Emit(page, f) == page <==> PrefixesLead(page, f)
  {
    if Emit(page, f) == page {
      EmitSize(page, f);
      forall k | 0 <= k < |page|
        ensures f(page[k]) <==> k < |Prefixes(page, f)|
      {
        assert page[k] == Emit(page, f)[k];
        assert k < |Prefixes(page, f)| ==> page[k] in Prefixes(page, f);
        assert k >= |Prefixes(page, f)| ==> page[k] in Contents(page, f);
      }
    }
    if PrefixesLead(page, f) {
      LeadingEmits(page, f);
    }
  }

  /** The wire is the listing exactly when every page's prefixes lead. */
  lemma {:induction false} WireExact(pages: seq<seq<Row>>, f: Rollup)
    ensures Wire(pages, f) == Flat(pages) <==> forall p | p in pages :: PrefixesLead(p, f)
    ensures |Wire(pages, f)| == |Flat(pages)|
  {
    hide PrefixesLead, Emit;
    if pages != [] {
      var p, rest := pages[0], pages[1..];
      EmitExact(p, f);
      EmitSize(p, f);
      WireExact(rest, f);
      assert forall q | q in pages :: q == p || q in rest;
      if Wire(pages, f) == Flat(pages) {
        assert Emit(p, f) == Wire(pages, f)[..|p|] == Flat(pages)[..|p|] == p;
        assert Wire(rest, f) == Wire(pages, f)[|p|..] == Flat(pages)[|p|..] == Flat(rest);
      }
    }
  }

  // ---------- what a cut inside a page costs ----------

  /** Every key of x below every key of y. */
  ghost predicate AllBelow(x: seq<Row>, y: seq<Row>) {
    forall r, q | r in x && q in y :: Less(r.key, q.key)
  }

  lemma {:induction false} SomesHold(rows: seq<Row>, k: string)
    ensures Holds(Somes(rows), k) <==> exists r :: r in rows && r.key == k
  {
    if exists r :: r in rows && r.key == k {
      var i :| 0 <= i < |rows| && rows[i].key == k;
      SomesAt(rows, i);
    }
    if Holds(Somes(rows), k) {
      var i :| 0 <= i < |Somes(rows)| && Somes(rows)[i].Some? && Somes(rows)[i].value.key == k;
      SomesAt(rows, i);
    }
  }

  /** A row sorts past the greatest key held exactly when it sorts past every row held. */
  lemma {:induction false} PastAll(held: seq<Row>, q: Row)
    requires q.key != ""
    ensures Less(LastKey(Somes(held)), q.key) <==> forall r | r in held :: Less(r.key, q.key)
  {
    hide LastKey, Somes, Holds;
    var g := LastKey(Somes(held));
    GreatestHeld(Somes(held), g);
    SomesHold(held, g);
    forall r | r in held && Less(g, q.key)
      ensures Less(r.key, q.key)
    {
      SomesHold(held, r.key);
      GreatestHeld(Somes(held), r.key);
      LessIsTotal(r.key, g);
      if Less(r.key, g) {
        LessIsTransitive(r.key, g, q.key);
      }
    }
  }

  /** The listing's pages: whole ones held, the next one cut after j of its rows. */
  function Taken(L: seq<Row>, a: nat, n: nat, j: nat, f: Rollup): seq<Row>
    requires a + n <= |L| && j <= |Emit(L[a..a + n], f)|
  {
    L[..a] + Emit(L[a..a + n], f)[..j]
  }

  lemma {:induction false} BelowPage(L: seq<Row>, a: nat, n: nat, r: Row, q: Row)
    requires Ascending(L) && a + n <= |L| && r in L[..a] && q in L[a..a + n]
    ensures Less(r.key, q.key) && q.key != ""
  {
    var i :| 0 <= i < a && L[..a][i] == r;
    var k :| 0 <= k < n && L[a..a + n][k] == q;
    assert InOrder(L, i, a + k) && Named(L, a + k);
  }

  /** A window cut after j rows of a page is gone on with past its greatest key. Of
      the page's rows not taken, the next window lists exactly those past every row
      taken: it lists all of them exactly when the cut parts low keys from high. */
  lemma {:induction false} CutExact(L: seq<Row>, a: nat, n: nat, j: nat, f: Rollup)
    requires Ascending(L) && a + n <= |L| && j <= n
    ensures |Emit(L[a..a + n], f)| == n
    ensures var e := Emit(L[a..a + n], f);
            var next := ListAfter(L, LastKey(Somes(Taken(L, a, n, j, f))));
            && (forall q | q in e[j..] :: q in next <==> forall r | r in e[..j] :: Less(r.key, q.key))
            && ((forall q | q in e[j..] :: q in next) <==> AllBelow(e[..j], e[j..]))
  {
    hide Emit, LastKey, Somes, Less, Ascending;
    var page := L[a..a + n];
    EmitSize(page, f);
    var e := Emit(page, f);
    var held := L[..a] + e[..j];
    forall q | q in e[j..]
      ensures q in ListAfter(L, LastKey(Somes(held))) <==> forall r | r in e[..j] :: Less(r.key, q.key)
    {
      InPage(page, q, f);
      assert q in L;
      ListedWhen(L, LastKey(Somes(held)), q);
      NamedIn(L, a, n, q);
      PastAll(held, q);
      forall r | r in L[..a]
        ensures Less(r.key, q.key)
      {
        BelowPage(L, a, n, r, q);
      }
    }
  }

  lemma {:induction false} NamedIn(L: seq<Row>, a: nat, n: nat, q: Row)
    requires Ascending(L) && a + n <= |L| && q in L[a..a + n]
    ensures q.key != ""
  {
    var k :| 0 <= k < n && L[a..a + n][k] == q;
    assert Named(L, a + k);
  }

  lemma {:induction false} InPage(page: seq<Row>, q: Row, f: Rollup)
    requires q in Emit(page, f)
    ensures q in page
  {
    EmitSize(page, f);
  }

  lemma {:induction false} EmitAscends(page: seq<Row>, f: Rollup)
    requires Ascending(page)
    ensures Ascending(Prefixes(page, f)) && Ascending(Contents(page, f))
  {
    if page != [] {
      var rest := page[1..];
      forall i, k | 0 <= i < k < |rest|
        ensures InOrder(rest, i, k)
      {
        assert InOrder(page, i + 1, k + 1);
      }
      forall i | 0 <= i < |rest|
        ensures Named(rest, i)
      {
        assert Named(page, i + 1);
      }
      EmitAscends(rest, f);
      EmitSize(rest, f);
      if f(page[0]) {
        Prefixed(page, Prefixes(rest, f));
        assert Contents(page, f) == Contents(rest, f);
      } else {
        Prefixed(page, Contents(rest, f));
        assert Prefixes(page, f) == Prefixes(rest, f);
      }
    }
  }

  lemma {:induction false} Prefixed(page: seq<Row>, rows: seq<Row>)
    requires Ascending(page) && page != [] && Ascending(rows) && forall r | r in rows :: r in page[1..]
    ensures Ascending([page[0]] + rows)
  {
    var out := [page[0]] + rows;
    forall i, k | 0 <= i < k < |out|
      ensures InOrder(out, i, k)
    {
      if i == 0 {
        assert rows[k - 1] in rows;
        var m :| 0 <= m < |page[1..]| && page[1..][m] == rows[k - 1];
        assert InOrder(page, 0, m + 1);
      } else {
        assert InOrder(rows, i - 1, k - 1);
      }
    }
    forall i | 0 <= i < |out|
      ensures Named(out, i)
    {
      assert i == 0 ==> Named(page, 0);
      assert i > 0 ==> Named(rows, i - 1);
    }
  }

  /** What to look at: no prefix taken, no content row left, or the last prefix taken
      below the first content row left. */
  predicate CleanCut(page: seq<Row>, j: nat, f: Rollup)
    requires j <= |Emit(page, f)|
  {
    var t := Min(j, |Prefixes(page, f)|);
    t == 0 || j - t >= |Contents(page, f)| || Less(Prefixes(page, f)[t - 1].key, Contents(page, f)[j - t].key)
  }

  lemma {:induction false} CleanCutExact(page: seq<Row>, j: nat, f: Rollup)
    requires Ascending(page) && j <= |Emit(page, f)|
    ensures AllBelow(Emit(page, f)[..j], Emit(page, f)[j..]) <==> CleanCut(page, j, f)
  {
    hide Less, Prefixes, Contents, Ascending, AllBelow;
    EmitAscends(page, f);
    var F, G := Prefixes(page, f), Contents(page, f);
    var t := Min(j, |F|);
    CutParts(F, G, j);
    if CleanCut(page, j, f) {
      PartsBelow(F, G, t, j - t);
    } else {
      NotBelow(F, G, t, j - t);
    }
  }

  lemma {:induction false} CutParts(F: seq<Row>, G: seq<Row>, j: nat)
    requires j <= |F| + |G|
    ensures var t := Min(j, |F|); (F + G)[..j] == F[..t] + G[..j - t] && (F + G)[j..] == F[t..] + G[j - t..]
  {
    if j <= |F| {
      assert F[..j] + G[..0] == F[..j] == (F + G)[..j];
      assert (F + G)[j..] == F[j..] + G;
    } else {
      assert F[|F|..] + G[j - |F|..] == G[j - |F|..] == (F + G)[j..];
    }
  }

  lemma {:induction false} NotBelow(F: seq<Row>, G: seq<Row>, t: nat, u: nat)
    requires 0 < t <= |F| && u < |G| && !Less(F[t - 1].key, G[u].key)
    ensures !AllBelow(F[..t] + G[..u], F[t..] + G[u..])
  {
    hide Less;
    assert F[..t][t - 1] == F[t - 1] && G[u..][0] == G[u];
    assert F[t - 1] in F[..t] + G[..u] && G[u] in F[t..] + G[u..];
  }

  lemma {:induction false} PartsBelow(F: seq<Row>, G: seq<Row>, t: nat, u: nat)
    requires Ascending(F) && Ascending(G) && t <= |F| && u <= |G| && (u == 0 || t == |F|)
    requires t == 0 || u == |G| || Less(F[t - 1].key, G[u].key)
    ensures AllBelow(F[..t] + G[..u], F[t..] + G[u..])
  {
    forall r, q | r in F[..t] + G[..u] && q in F[t..] + G[u..]
      ensures Less(r.key, q.key)
    {
      if r in F[..t] && q in G[u..] {
        var i :| 0 <= i < t && F[..t][i] == r;
        var k :| 0 <= k < |G| - u && G[u..][k] == q;
        AtMost(F, i, t - 1, G[u].key);
        AtLeast(G, u, u + k, F[i].key);
      } else if r in F[..t] {
        var i :| 0 <= i < t && F[..t][i] == r;
        var k :| 0 <= k < |F| - t && F[t..][k] == q;
        assert InOrder(F, i, t + k);
      } else {
        assert q in G[u..];
        var i :| 0 <= i < u && G[..u][i] == r;
        var k :| 0 <= k < |G| - u && G[u..][k] == q;
        assert InOrder(G, i, u + k);
      }
    }
  }

  lemma {:induction false} AtMost(F: seq<Row>, i: nat, k: nat, key: string)
    requires Ascending(F) && i <= k < |F| && Less(F[k].key, key)
    ensures Less(F[i].key, key)
  {
    if i < k {
      assert InOrder(F, i, k);
      LessIsTransitive(F[i].key, F[k].key, key);
    }
  }

  lemma {:induction false} AtLeast(G: seq<Row>, i: nat, k: nat, key: string)
    requires Ascending(G) && i <= k < |G| && Less(key, G[i].key)
    ensures Less(key, G[k].key)
  {
    if i < k {
      assert InOrder(G, i, k);
      LessIsTransitive(key, G[i].key, G[k].key);
    }
  }

  /** A page of one file and one folder behind it, cut after one row: the folder is
      taken, and the file is never listed again. */
  lemma {:induction false} CutLosesFile(f: Rollup)
    requires !f(Row("a", 0)) && f(Row("b/", 0))
    ensures var L := [Row("a", 0), Row("b/", 0)];
            Ascending(L) && |Emit(L, f)| == 2 && Emit(L, f)[..1] == [L[1]]
            && L[0] !in ListAfter(L, LastKey(Somes(Emit(L, f)[..1])))
  {
    var L := [Row("a", 0), Row("b/", 0)];
    assert Named(L, 0) && Named(L, 1) && InOrder(L, 0, 1);
    var a, b := L[0], L[1];
    assert L == [a] + [b];
    EmitTwo(a, b, f);
    OneKey(b);
    assert Somes([b]) == [Some(b)] by { SomesOne(b); }
    ListedWhen(L, "b/", a);
  }

  lemma {:induction false} SomesOne(r: Row)
    ensures Somes([r]) == [Some(r)]
  {
    assert [r][1..] == [];
  }

  lemma {:induction false} EmitTwo(a: Row, b: Row, f: Rollup)
    requires !f(a) && f(b)
    ensures Emit([a, b], f) == [b, a] && Emit([a, b], f)[..1] == [b]
  {
    assert [a, b][1..] == [b] && [b][1..] == [];
    assert Prefixes([b], f) == [b] && Contents([b], f) == [];
  }
}
