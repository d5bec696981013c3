/** Small stock types shared by the project. */
module Basics {
  datatype Option<+T> = None | Some(value: T)

  function Min(a: int, b: int): int {
    if a <= b then a else b
  }

  function Max(a: int, b: int): int {
    if a >= b then a else b
  }
}

/** The provider's listing: rows in strictly ascending key order, and what
    "list strictly past a key" answers. */
module Listing {
  import opened Basics

  datatype Row = Row(key: string, size: nat)

  /** The provider's key order: code point by code point, as UTF-8 bytes sort.
      KeyOrder says where JavaScript's `<` on code units parts from it. */
  predicate Less(a: string, b: string)
    decreases |b|
  {
    b != "" && (a == "" || a[0] < b[0] || (a[0] == b[0] && Less(a[1..], b[1..])))
  }

  lemma {:induction false} LessIsTotal(a: string, b: string)
    ensures Less(a, b) || a == b || Less(b, a)
    ensures !(Less(a, b) && Less(b, a))
    decreases |a|
  {
    if a == "" || b == "" {
    } else {
      LessIsTotal(a[1..], b[1..]);
      assert a == [a[0]] + a[1..] && b == [b[0]] + b[1..];
    }
  }

  lemma {:induction false} LessIsTransitive(a: string, b: string, c: string)
    requires Less(a, b) && Less(b, c)
    ensures Less(a, c)
    decreases |c|
  {
    if a != "" && a[0] == b[0] && b[0] == c[0] {
      LessIsTransitive(a[1..], b[1..], c[1..]);
    }
  }

  predicate Named(L: seq<Row>, i: nat)
    requires i < |L|
  {
    L[i].key != ""
  }

  predicate InOrder(L: seq<Row>, i: nat, j: nat)
    requires i < |L| && j < |L|
  {
    Less(L[i].key, L[j].key)
  }

  /** The listing premise: keys are non-empty and strictly ascend. Arrival says when
      a folder view's wire keeps it. */
  ghost predicate Ascending(L: seq<Row>) {
    && (forall i | 0 <= i < |L| :: Named(L, i))
    && (forall i, j | 0 <= i < j < |L| :: InOrder(L, i, j))
  }

  lemma {:induction false} Ordered(L: seq<Row>, i: nat, j: nat)
    requires Ascending(L) && i < |L| && j < |L|
    ensures Less(L[i].key, L[j].key) <==> i < j
  {
    LessIsTotal(L[i].key, L[j].key);
    if i < j {
      assert InOrder(L, i, j);
    } else if j < i {
      assert InOrder(L, j, i);
    }
  }

  lemma {:induction false} AscendingDistinct(L: seq<Row>, i: nat, j: nat)
    requires Ascending(L) && i < |L| && j < |L|
    ensures L[i] == L[j] <==> i == j
  {
    Ordered(L, i, j);
    Ordered(L, j, i);
    LessIsTotal(L[i].key, L[i].key);
  }

  /** What a listing started strictly past `after` answers. */
  function ListAfter(L: seq<Row>, after: string): (r: seq<Row>)
    ensures |r| <= |L|
  {
    if L == [] then []
    else (if Less(after, L[0].key) then [L[0]] else []) + ListAfter(L[1..], after)
  }

  /** A row is listed exactly when it sorts past the key. */
  lemma {:induction false} ListedWhen(L: seq<Row>, after: string, q: Row)
    ensures q in ListAfter(L, after) <==> q in L && Less(after, q.key)
  {
    if L != [] {
      ListedWhen(L[1..], after, q);
      assert L == [L[0]] + L[1..];
    }
  }

  /** `after` separates the first i rows from the rest. */
  ghost predicate Splits(L: seq<Row>, after: string, i: nat) {
    && i <= |L|
    && (forall j | 0 <= j < i :: !Less(after, L[j].key))
    && (forall j | i <= j < |L| :: Less(after, L[j].key))
  }

  lemma {:induction false} SplitListsSuffix(L: seq<Row>, after: string, i: nat)
    requires Splits(L, after, i)
    ensures ListAfter(L, after) == L[i..]
  {
    if L != [] {
      assert forall j | 0 <= j < |L[1..]| :: L[1..][j] == L[j + 1];
      if i == 0 {
        SplitListsSuffix(L[1..], after, 0);
        assert L == [L[0]] + L[1..];
      } else {
        SplitListsSuffix(L[1..], after, i - 1);
        assert L[1..][i - 1..] == L[i..];
      }
    }
  }

  /** Whatever key it starts past, a listing answers a suffix. */
  lemma {:induction false} ListAfterIsSuffix(L: seq<Row>, after: string)
    requires Ascending(L)
    ensures ListAfter(L, after) == L[|L| - |ListAfter(L, after)|..]
  {
    if L != [] {
      if Less(after, L[0].key) {
        forall j | 0 <= j < |L|
          ensures Less(after, L[j].key)
        {
          if j > 0 {
            Ordered(L, 0, j);
            LessIsTransitive(after, L[0].key, L[j].key);
          }
        }
        SplitListsSuffix(L, after, 0);
      } else {
        forall i, j | 0 <= i < j < |L[1..]|
          ensures InOrder(L[1..], i, j)
        {
          Ordered(L, i + 1, j + 1);
        }
        forall i | 0 <= i < |L[1..]|
          ensures Named(L[1..], i)
        {
          assert Named(L, i + 1);
        }
        ListAfterIsSuffix(L[1..], after);
      }
    }
  }

  /** The start-after key that stands right in front of listing index i. */
  function KeyBefore(L: seq<Row>, i: nat): string
    requires i <= |L|
  {
    if i == 0 then "" else L[i - 1].key
  }

  lemma {:induction false} KeyBeforeSplits(L: seq<Row>, i: nat, j: nat)
    requires Ascending(L) && i <= |L| && j < |L|
    ensures Less(KeyBefore(L, i), L[j].key) <==> i <= j
  {
    if i == 0 {
      assert Named(L, j);
    } else {
      Ordered(L, i - 1, j);
    }
  }

  /** Any observed key and its index form a true binding. */
  lemma {:induction false} KeyBeforeLists(L: seq<Row>, i: nat)
    requires Ascending(L) && i <= |L|
    ensures ListAfter(L, KeyBefore(L, i)) == L[i..]
  {
    forall j | 0 <= j < |L|
      ensures Less(KeyBefore(L, i), L[j].key) <==> i <= j
    {
      KeyBeforeSplits(L, i, j);
    }
    SplitListsSuffix(L, KeyBefore(L, i), i);
  }

  /** ...and with no other index: a key bound to the wrong index is a lie. */
  lemma {:induction false} BindingExact(L: seq<Row>, s: nat, i: nat)
    requires Ascending(L) && s <= |L| && i <= |L|
    ensures ListAfter(L, KeyBefore(L, s)) == L[i..] <==> s == i
  {
    KeyBeforeLists(L, s);
    if s != i {
      assert |L[s..]| != |L[i..]|;
    }
  }
}
