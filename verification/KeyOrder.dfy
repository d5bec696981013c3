/** Two string orders: the provider's, code point by code point as UTF-8 bytes sort,
    and the one JavaScript's `<` gives, code unit by code unit. */
module KeyOrder {
  import opened Basics
  import opened Listing
  import opened WindowSpec
  import opened WindowSlices

  predicate Astral(c: char) {
    c as int >= 0x1_0000
  }

  /** A character as one UTF-16 code unit, or as a surrogate pair. */
  function Unit(c: char): (us: seq<nat>)
    ensures us != []
  {
    if Astral(c) then [0xD800 + (c as int - 0x1_0000) / 0x400, 0xDC00 + (c as int - 0x1_0000) % 0x400] else [c as int]
  }

  /** Section 2 of RFC 2781: the pair's halves keep to their ranges and give the
      character back. */
  lemma {:induction false} UnitExact(c: char)
    ensures !Astral(c) ==> Unit(c) == [c as int]
    ensures Astral(c) ==>
              && |Unit(c)| == 2
              && 0xD800 <= Unit(c)[0] < 0xDC00 <= Unit(c)[1] < 0xE000
              && (Unit(c)[0] - 0xD800) * 0x400 + (Unit(c)[1] - 0xDC00) + 0x1_0000 == c as int
  {
  }

  function Units(s: string): seq<nat> {
    if s == "" then [] else Unit(s[0]) + Units(s[1..])
  }

  predicate UnitsLess(a: seq<nat>, b: seq<nat>)
    decreases |b|
  {
    b != [] && (a == [] || a[0] < b[0] || (a[0] == b[0] && UnitsLess(a[1..], b[1..])))
  }

  predicate JsLess(a: string, b: string) {
    UnitsLess(Units(a), Units(b))
  }

  /** Where the strings first differ, a character above the surrogates' own range
      stands against one written as a surrogate pair. */
  predicate Crossed(a: string, b: string)
    decreases |a|
  {
    && a != "" && b != ""
    && if a[0] == b[0] then Crossed(a[1..], b[1..])
       else (Astral(a[0]) && '\U{E000}' <= b[0] && !Astral(b[0]))
            || (Astral(b[0]) && '\U{E000}' <= a[0] && !Astral(a[0]))
  }

  lemma {:induction false} SharedUnits(p: seq<nat>, a: seq<nat>, b: seq<nat>)
    ensures UnitsLess(p + a, p + b) <==> UnitsLess(a, b)
    decreases |p|
  {
    if p == [] {
      assert p + a == a && p + b == b;
    } else {
      assert (p + a)[1..] == p[1..] + a && (p + b)[1..] == p[1..] + b;
      SharedUnits(p[1..], a, b);
    }
  }

  lemma {:induction false} UnitDiffers(c: char, d: char, a: seq<nat>, b: seq<nat>)
    requires c != d
    ensures UnitsLess(Unit(c) + a, Unit(d) + b) <==>
            (c < d) != ((Astral(c) && '\U{E000}' <= d && !Astral(d)) || (Astral(d) && '\U{E000}' <= c && !Astral(c)))
  {
    var x, y := Unit(c) + a, Unit(d) + b;
    assert x[0] == Unit(c)[0] && y[0] == Unit(d)[0];
    if Astral(c) && Astral(d) {
      assert x[1..][0] == Unit(c)[1] && y[1..][0] == Unit(d)[1];
    }
  }

  /** The two orders answer alike exactly where the strings do not cross. */
  lemma {:induction false} JsLessExact(a: string, b: string)
    ensures JsLess(a, b) <==> Less(a, b) != Crossed(a, b)
    decreases |a|
  {
    if a != "" && b != "" {
      if a[0] == b[0] {
        JsLessExact(a[1..], b[1..]);
        SharedUnits(Unit(a[0]), Units(a[1..]), Units(b[1..]));
      } else {
        UnitDiffers(a[0], b[0], Units(a[1..]), Units(b[1..]));
      }
    }
  }

  /** lastKey as the grid computes it, by JavaScript's order. */
  function JsLastKey(all: seq<Cell>): string {
    if all == [] then ""
    else
      var k := JsLastKey(all[..|all| - 1]);
      var c := all[|all| - 1];
      if c.Some? && JsLess(k, c.value.key) then c.value.key else k
  }

  lemma {:induction false} UnitsTransitive(a: seq<nat>, b: seq<nat>, c: seq<nat>)
    requires UnitsLess(a, b) && UnitsLess(b, c)
    ensures UnitsLess(a, c)
    decreases |c|
  {
    if a != [] && a[0] == b[0] && b[0] == c[0] {
      UnitsTransitive(a[1..], b[1..], c[1..]);
    }
  }

  lemma {:induction false} UnitsIrreflexive(a: seq<nat>)
    ensures !UnitsLess(a, a)
  {
    if a != [] {
      UnitsIrreflexive(a[1..]);
    }
  }

  lemma {:induction false} CrossedSymmetric(a: string, b: string)
    ensures Crossed(a, b) <==> Crossed(b, a)
    decreases |a|
  {
    if a != "" && b != "" && a[0] == b[0] {
      CrossedSymmetric(a[1..], b[1..]);
    }
  }

  predicate Holds(all: seq<Cell>, k: string) {
    exists i :: 0 <= i < |all| && all[i].Some? && all[i].value.key == k
  }

  lemma {:induction false} HoldsStep(all: seq<Cell>, k: string)
    requires all != []
    ensures Holds(all, k) <==> Holds(all[..|all| - 1], k) || (all[|all| - 1].Some? && all[|all| - 1].value.key == k)
  {
    var front := all[..|all| - 1];
    if Holds(front, k) {
      var i :| 0 <= i < |front| && front[i].Some? && front[i].value.key == k;
      assert all[i] == front[i];
    }
    if Holds(all, k) {
      var i :| 0 <= i < |all| && all[i].Some? && all[i].value.key == k;
      assert i < |front| ==> front[i] == all[i];
    }
  }

  /** Each key is the greatest one held, in its own order. */
  lemma {:induction false} GreatestHeld(all: seq<Cell>, k: string)
    ensures LastKey(all) == "" || Holds(all, LastKey(all))
    ensures JsLastKey(all) == "" || Holds(all, JsLastKey(all))
    ensures Holds(all, k) ==> !Less(LastKey(all), k) && !JsLess(JsLastKey(all), k)
  {
    if all != [] {
      var front, c := all[..|all| - 1], all[|all| - 1];
      GreatestHeld(front, k);
      HoldsStep(all, k);
      HoldsStep(all, LastKey(all));
      HoldsStep(all, JsLastKey(all));
      if c.Some? {
        GreaterStays(LastKey(front), c.value.key, k);
        GreaterStays(JsLastKey(front), c.value.key, k);
      }
    }
  }

  lemma {:induction false} GreaterStays(a: string, b: string, k: string)
    ensures Less(a, b) && !Less(a, k) ==> !Less(b, k)
    ensures JsLess(a, b) && !JsLess(a, k) ==> !JsLess(b, k)
    ensures !Less(k, k) && !JsLess(k, k)
  {
    hide Units;
    LessIsTotal(k, k);
    UnitsIrreflexive(Units(k));
    if Less(a, b) && Less(b, k) {
      LessIsTransitive(a, b, k);
    }
    if JsLess(a, b) && JsLess(b, k) {
      UnitsTransitive(Units(a), Units(b), Units(k));
    }
  }

  /** The two last keys are one exactly when no held key crosses the greatest. */
  lemma {:induction false} LastKeysAgreeExact(all: seq<Cell>)
    ensures JsLastKey(all) == LastKey(all) <==> forall k | Holds(all, k) :: !Crossed(LastKey(all), k)
  {
    hide LastKey, JsLastKey, Less, JsLess, Crossed, Holds;
    var m, j := LastKey(all), JsLastKey(all);
    GreatestHeld(all, m);
    GreatestHeld(all, j);
    if m == j {
      forall k | Holds(all, k)
        ensures !Crossed(m, k)
      {
        GreatestHeld(all, k);
        JsLessExact(m, k);
      }
    } else if forall k | Holds(all, k) :: !Crossed(m, k) {
      Unequal(m, j);
      LessIsTotal(m, j);
      JsLessExact(j, m);
      CrossedSymmetric(m, j);
      assert false;
    }
  }

  lemma {:induction false} Unequal(m: string, j: string)
    requires m != j
    ensures Less("", m) || m == ""
    ensures m == "" ==> Less(m, j)
    ensures j == "" ==> Less(j, m) && !Crossed(m, j)
  {
  }

  lemma {:induction false} OneKey(r: Row)
    requires r.key != ""
    ensures JsLastKey([Some(r)]) == LastKey([Some(r)]) == r.key
  {
    var all := [Some(r)];
    assert all[..0] == [];
    JsLessExact("", r.key);
  }

  // ---------- resuming past lastKey, by JavaScript's order ----------

  /** A window that holds a row asks for its last one again exactly when some held
      key crosses that row's. */
  lemma {:induction false} RepeatExact(all: seq<Cell>, base: nat, L: seq<Row>)
    requires Ascending(L) && Slots(all, base, L) && Band(all) < |all|
    ensures var last := base + |all| - Band(all) - 1;
            L[last] in ListAfter(L, JsLastKey(all)) <==> exists k :: Holds(all, k) && Crossed(L[last].key, k)
  {
    hide LastKey, JsLastKey, Less, Crossed, Holds, Band, Ascending, SlotTrue;
    var last := base + |all| - Band(all) - 1;
    LastKeyIs(all, base, L);
    var m, j := LastKey(all), JsLastKey(all);
    LastKeysAgreeExact(all);
    ListedWhen(L, j, L[last]);
    GreatestHeld(all, j);
    LessIsTotal(m, j);
    LessIsTotal(m, m);
    if j == "" {
      NamedPasses(L, last);
    }
  }

  lemma {:induction false} NamedPasses(L: seq<Row>, i: nat)
    requires Ascending(L) && i < |L|
    ensures Less("", L[i].key)
  {
    assert Named(L, i);
  }

  /** So where a listing's last two keys cross, a window that holds it whole lists
      the last row a second time. */
  lemma {:induction false} CrossedKeysRepeat(L: seq<Row>)
    requires Ascending(L) && |L| >= 2 && Crossed(L[|L| - 1].key, L[|L| - 2].key)
    ensures L[|L| - 1] in ListAfter(L, JsLastKey(Somes(L)))
  {
    hide JsLastKey, Crossed, Ascending, Somes;
    var n := |L|;
    forall i | 0 <= i < n
      ensures SlotTrue(Somes(L), 0, L, i) && Somes(L)[i] == Some(L[i])
    {
      SomesAt(L, i);
    }
    if Band(Somes(L)) > 0 {
      BandAt(Somes(L), n - 1);
    }
    RepeatExact(Somes(L), 0, L);
    assert Holds(Somes(L), L[n - 2].key);
  }

  /** Resuming past lastKey picks up at the first owed row exactly when the window
      is anchored and no held key crosses the greatest. */
  lemma {:induction false} JsResumeExact(s: State, L: seq<Row>)
    requires Ascending(L) && Slots(s.all, s.base, L)
    ensures |L| - |ListAfter(L, JsLastKey(s.all))| == s.Edge() - Band(s.all) <==>
            Anchored(s) && forall k | Holds(s.all, k) :: !Crossed(LastKey(s.all), k)
  {
    hide LastKey, JsLastKey, Less, Crossed, Holds, Band, Ascending, ListAfter, Slots;
    ResumeExact(s, L);
    LastKeysAgreeExact(s.all);
    if JsLastKey(s.all) != LastKey(s.all) {
      if Band(s.all) < |s.all| {
        LastKeyIs(s.all, s.base, L);
        RepeatExact(s.all, s.base, L);
        NotBehind(L, JsLastKey(s.all), s.Edge() - Band(s.all) - 1);
      } else {
        NoneHeld(s.all);
      }
    }
  }

  lemma {:induction false} NoneHeld(all: seq<Cell>)
    requires Band(all) == |all|
    ensures JsLastKey(all) == LastKey(all)
  {
    GreatestHeld(all, JsLastKey(all));
    GreatestHeld(all, LastKey(all));
    forall i | 0 <= i < |all|
      ensures all[i] == None
    {
      BandAt(all, i);
    }
  }

  lemma {:induction false} NotBehind(L: seq<Row>, after: string, i: nat)
    requires Ascending(L) && i < |L| && L[i] in ListAfter(L, after)
    ensures |L| - |ListAfter(L, after)| != i + 1
  {
    hide ListAfter, Ascending;
    ListAfterIsSuffix(L, after);
    if |L| - |ListAfter(L, after)| == i + 1 {
      var k :| 0 <= k < |L| - i - 1 && L[i + 1..][k] == L[i];
      AscendingDistinct(L, i, i + 1 + k);
    }
  }

  /** Such listings exist: a character above the surrogates, and one written as a
      pair of them. */
  lemma {:induction false} CrossedKeysExist()
    ensures var L := [Row("\U{FFFD}", 0), Row("\U{1F600}", 0)]; Ascending(L) && Crossed(L[1].key, L[0].key)
  {
    var L := [Row("\U{FFFD}", 0), Row("\U{1F600}", 0)];
    assert Named(L, 0) && Named(L, 1) && InOrder(L, 0, 1);
  }
}
