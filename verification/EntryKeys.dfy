/** The side pane's entry keys: exactly which names they tell apart. */
module EntryKeys {
  import opened Basics
  import opened Places

  // ---------- clean paths ----------

  /** No slash at either end, no two in a row. */
  predicate Clean(s: string) {
    && (s != "" ==> s[0] != '/' && s[|s| - 1] != '/')
    && NoDouble(s)
  }

  predicate NoDouble(s: string) {
    forall i | 0 <= i < |s| - 1 :: s[i] != '/' || s[i + 1] != '/'
  }

  function Segments(s: string): seq<string> {
    if s == "" then [] else Split(s)
  }

  /** split('/') */
  function Split(s: string): (segs: seq<string>)
    ensures segs != []
  {
    if s == "" then [""]
    else if s[0] == '/' then [""] + Split(s[1..])
    else var rest := Split(s[1..]); [[s[0]] + rest[0]] + rest[1..]
  }

  lemma {:induction false} SplitJoins(s: string)
    ensures Join(Split(s)) == s
  {
    if s != "" {
      SplitJoins(s[1..]);
      var rest := Split(s[1..]);
      if s[0] == '/' {
        assert ([""] + rest)[1..] == rest;
        assert Join([""] + rest) == "" + "/" + Join(rest) == s;
      } else {
        JoinGrows(s[0], rest);
      }
    }
  }

  lemma {:induction false} JoinGrows(c: char, rest: seq<string>)
    requires rest != []
    ensures Join([[c] + rest[0]] + rest[1..]) == [c] + Join(rest)
  {
    var grown := [[c] + rest[0]] + rest[1..];
    if |rest| > 1 {
      assert grown[1..] == rest[1..];
      assert [c] + rest[0] + "/" + Join(rest[1..]) == [c] + (rest[0] + "/" + Join(rest[1..]));
    }
  }

  lemma {:induction false} TailNoDouble(s: string)
    requires NoDouble(s) && s != ""
    ensures NoDouble(s[1..])
  {
    var t := s[1..];
    forall i | 0 <= i < |t| - 1
      ensures t[i] != '/' || t[i + 1] != '/'
    {
      assert s[i + 1] != '/' || s[i + 2] != '/';
    }
  }

  /** Behind its first piece a string without doubled or trailing slashes splits
      into segments, and the first piece is empty only before a slash. */
  lemma {:induction false} SplitProper(s: string)
    requires NoDouble(s) && s != "" && s[|s| - 1] != '/'
    ensures '/' !in Split(s)[0] && (Split(s)[0] == "" ==> s[0] == '/') && Proper(Split(s)[1..])
  {
    var t := s[1..];
    if t != "" {
      TailNoDouble(s);
      SplitProper(t);
      if s[0] == '/' {
        assert t[0] == s[1] != '/';
        assert forall x | x in Split(t) :: x == Split(t)[0] || x in Split(t)[1..];
        assert Split(s)[1..] == Split(t);
      }
    }
  }

  /** The clean strings are exactly the joins of segments. */
  lemma {:induction false} CleanSplits(s: string)
    requires Clean(s)
    ensures Proper(Segments(s)) && Join(Segments(s)) == s
  {
    if s != "" {
      SplitProper(s);
      SplitJoins(s);
      assert forall x | x in Split(s) :: x == Split(s)[0] || x in Split(s)[1..];
    }
  }

  lemma {:induction false} JoinClean(segs: seq<string>)
    requires Proper(segs)
    ensures Clean(Join(segs))
  {
    if segs != [] {
      JoinEnds(segs);
      var a := segs[0];
      assert a in segs;
      assert forall i | 0 <= i < |a| :: a[i] in a;
      if |segs| > 1 {
        JoinClean(segs[1..]);
        JoinEnds(segs[1..]);
        BridgeClean(a, Join(segs[1..]));
      }
    }
  }

  lemma {:induction false} BridgeClean(a: string, b: string)
    requires '/' !in a && a != "" && Clean(b) && b != ""
    ensures NoDouble(a + "/" + b)
  {
    var s := a + "/" + b;
    forall i | 0 <= i < |s| - 1
      ensures s[i] != '/' || s[i + 1] != '/'
    {
      if i < |a| {
        assert s[i] == a[i] && a[i] in a;
      } else if i > |a| {
        assert s[i] == b[i - |a| - 1] && s[i + 1] == b[i - |a|];
      } else {
        assert s[i + 1] == b[0];
      }
    }
  }

  // ---------- anchors ----------

  /** What a key holds before its path. */
  datatype Root = OnRemote(source: string) | InBucket(source: string, bucket: string) | AllBuckets(source: string)

  function RootOf(p: Place): Root {
    match p
    case RemotePlace(source, _) => OnRemote(source)
    case BucketPlace(source, bucket, _) => InBucket(source, bucket)
    case BucketsPlace(source) => AllBuckets(source)
  }

  function SegsOf(p: Place): seq<string> {
    if p.BucketsPlace? then [] else p.segs
  }

  function PlaceAt(r: Root, segs: seq<string>): Place {
    match r
    case OnRemote(source) => RemotePlace(source, segs)
    case InBucket(source, bucket) => BucketPlace(source, bucket, segs)
    case AllBuckets(source) => BucketsPlace(source)
  }

  function Anchor(r: Root): string {
    match r
    case OnRemote(source) => source
    case InBucket(source, bucket) => source + "|" + bucket
    case AllBuckets(source) => source + "|"
  }

  function Key(p: Place): string {
    (if p.RemotePlace? then "remote|" else "s3|") + (Anchor(RootOf(p)) + "|" + Join(SegsOf(p)))
  }

  lemma {:induction false} EntryKeyIs(p: Place, sp: Spelling)
    requires ProperPlace(p)
    ensures EntryKey(EntryOf(p, sp)) == Key(p)
  {
    hide Join, Path, Norm;
    match p
    case RemotePlace(source, segs) =>
      NormPath(segs, sp);
      assert "remote|" + source + "|" + Join(segs) == "remote|" + (source + "|" + Join(segs));
    case BucketPlace(source, bucket, segs) =>
      NormPath(segs, sp.(lead := false));
      assert "s3|" + source + "|" + bucket + "|" + Join(segs) == "s3|" + (source + "|" + bucket + "|" + Join(segs));
    case BucketsPlace(source) =>
      NormPath([], Spelling(false, 0));
      JoinNothing();
      assert "s3|" + source + "|" + "" + "|" + "" == "s3|" + (source + "|" + "|" + "");
  }

  lemma {:induction false} JoinNothing()
    ensures Join([]) == ""
    ensures Path([], Spelling(false, 0)) == ""
  {
  }

  predicate SameKind(r: Root, q: Root) {
    r.OnRemote? <==> q.OnRemote?
  }

  lemma {:induction false} SameWhen(u: Place, su: Spelling, p: Place, sp: Spelling)
    requires ProperPlace(u) && ProperPlace(p)
    ensures EntrySame(EntryOf(u, su), EntryOf(p, sp)) <==>
            SameKind(RootOf(u), RootOf(p))
            && Anchor(RootOf(u)) + "|" + Join(SegsOf(u)) == Anchor(RootOf(p)) + "|" + Join(SegsOf(p))
  {
    hide EntryKey, Join, Path, Anchor;
    EntryKeyIs(u, su);
    EntryKeyIs(p, sp);
    var x, y := Anchor(RootOf(u)) + "|" + Join(SegsOf(u)), Anchor(RootOf(p)) + "|" + Join(SegsOf(p));
    var tag := if u.RemotePlace? then "remote|" else "s3|";
    if tag + x == tag + y {
      DropPrefix(tag, x, y);
    }
  }

  lemma {:induction false} DropPrefix(k: string, x: string, y: string)
    requires k + x == k + y
    ensures x == y
  {
    assert (k + x)[|k|..] == x && (k + y)[|k|..] == y;
  }

  // ---------- which keys meet ----------

  /** b is a and a bar with something behind it, and x opens with that something. */
  predicate Beyond(a: string, x: string, b: string, y: string) {
    a + "|" <= b && x == b[|a| + 1..] + "|" + y
  }

  lemma {:induction false} BeyondMeets(a: string, x: string, b: string, y: string)
    requires Beyond(a, x, b, y)
    ensures a + "|" + x == b + "|" + y
  {
    assert b == a + "|" + b[|a| + 1..];
  }

  lemma {:induction false} MeetBeyond(a: string, x: string, b: string, y: string)
    requires a + "|" + x == b + "|" + y && |a| < |b|
    ensures Beyond(a, x, b, y)
  {
    var s := a + "|" + x;
    assert s[..|a| + 1] == a + "|" && s[..|b|] == b;
    assert x == s[|a| + 1..] == (b + "|" + y)[|a| + 1..] == b[|a| + 1..] + "|" + y;
  }

  /** Two barred strings are equal exactly in these three ways. */
  lemma {:induction false} MeetExact(a: string, x: string, b: string, y: string)
    ensures a + "|" + x == b + "|" + y <==> (a == b && x == y) || Beyond(a, x, b, y) || Beyond(b, y, a, x)
  {
    hide Beyond;
    if Beyond(a, x, b, y) {
      BeyondMeets(a, x, b, y);
    } else if Beyond(b, y, a, x) {
      BeyondMeets(b, y, a, x);
    } else if a + "|" + x == b + "|" + y {
      if |a| < |b| {
        MeetBeyond(a, x, b, y);
      } else if |a| > |b| {
        MeetBeyond(b, y, a, x);
      } else {
        SameLength(a, x, b, y);
      }
    }
  }

  lemma {:induction false} SameLength(a: string, x: string, b: string, y: string)
    requires a + "|" + x == b + "|" + y && |a| == |b|
    ensures a == b && x == y
  {
    var s := a + "|" + x;
    assert a == s[..|a|] && b == s[..|b|];
    assert x == s[|a| + 1..] && y == s[|b| + 1..];
  }

  // ---------- which roots are told apart ----------

  /** Some path can open with s and go on with a bar: no slash first, none doubled. */
  predicate CanOpen(s: string) {
    (s != "" ==> s[0] != '/') && NoDouble(s)
  }

  predicate Opens(a: string, b: string) {
    a + "|" <= b && CanOpen(b[|a| + 1..])
  }

  lemma {:induction false} CanOpenExact(s: string, y: string)
    requires Clean(y)
    ensures Clean(s + "|" + y) <==> CanOpen(s)
  {
    var z := s + "|" + y;
    assert forall i | 0 <= i < |s| :: z[i] == s[i];
    assert z[|s|] == '|';
    assert forall i | 0 <= i < |y| :: z[|s| + 1 + i] == y[i];
    if NoDouble(z) {
      forall i | 0 <= i < |s| - 1
        ensures s[i] != '/' || s[i + 1] != '/'
      {
        assert z[i] != '/' || z[i + 1] != '/';
      }
    }
    if NoDouble(s) {
      forall i | 0 <= i < |z| - 1
        ensures z[i] != '/' || z[i + 1] != '/'
      {
        if i > |s| {
          assert z[i] == y[i - |s| - 1] && z[i + 1] == y[i - |s|];
        }
      }
    }
  }

  /** Every spelling of the two places has one key exactly when they are one place. */
  ghost predicate Told(u: Place, p: Place) {
    forall su, sp :: EntrySame(EntryOf(u, su), EntryOf(p, sp)) <==> u == p
  }

  ghost predicate RootsTold(r: Root, q: Root) {
    forall x, y | Proper(x) && Proper(y) :: Told(PlaceAt(r, x), PlaceAt(q, y))
  }

  predicate ProperRoot(r: Root) {
    r.InBucket? ==> r.bucket != ""
  }

  /** A path under r can spell its way into q's anchor. */
  predicate Enters(r: Root, q: Root) {
    !r.AllBuckets? && Opens(Anchor(r), Anchor(q))
  }

  predicate Clash(r: Root, q: Root) {
    r != q && SameKind(r, q) && (Anchor(r) == Anchor(q) || Enters(r, q) || Enters(q, r))
  }

  /** Two places that share a key without being one: their roots clash. */
  lemma {:induction false} SharedKeyClashes(u: Place, su: Spelling, p: Place, sp: Spelling)
    requires ProperPlace(u) && ProperPlace(p) && u != p && EntrySame(EntryOf(u, su), EntryOf(p, sp))
    ensures Clash(RootOf(u), RootOf(p))
  {
    hide EntrySame, EntryOf, Anchor, Clean, CanOpen, Join;
    SameWhen(u, su, p, sp);
    var r, q := RootOf(u), RootOf(p);
    var x, y := SegsOf(u), SegsOf(p);
    MeetExact(Anchor(r), Join(x), Anchor(q), Join(y));
    if Beyond(Anchor(r), Join(x), Anchor(q), Join(y)) {
      EnteredBy(r, x, q, y);
    } else if Beyond(Anchor(q), Join(y), Anchor(r), Join(x)) {
      EnteredBy(q, y, r, x);
    } else {
      JoinInjective(x, y);
    }
  }

  lemma {:induction false} EnteredBy(r: Root, x: seq<string>, q: Root, y: seq<string>)
    requires Proper(x) && Proper(y) && (r.AllBuckets? ==> x == []) && Beyond(Anchor(r), Join(x), Anchor(q), Join(y))
    ensures Enters(r, q) && r != q
  {
    hide Anchor, Clean, CanOpen, Join;
    JoinClean(x);
    JoinClean(y);
    JoinNothing();
    CanOpenExact(Anchor(q)[|Anchor(r)| + 1..], Join(y));
  }

  /** A place under r that shares its key with the root q itself. */
  function Intruder(r: Root, q: Root): Place
    requires Enters(r, q)
  {
    PlaceAt(r, Segments(Anchor(q)[|Anchor(r)| + 1..] + "|"))
  }

  lemma {:induction false} IntruderShares(r: Root, q: Root, su: Spelling, sp: Spelling)
    requires ProperRoot(r) && ProperRoot(q) && SameKind(r, q) && Enters(r, q)
    ensures ProperPlace(Intruder(r, q)) && Intruder(r, q) != PlaceAt(q, [])
    ensures EntrySame(EntryOf(Intruder(r, q), su), EntryOf(PlaceAt(q, []), sp))
  {
    hide EntrySame, EntryOf, Anchor, Clean, CanOpen, Join, Segments;
    var rem := Anchor(q)[|Anchor(r)| + 1..];
    JoinNothing();
    JoinClean([]);
    CanOpenExact(rem, "");
    assert rem + "|" + "" == rem + "|";
    CleanSplits(rem + "|");
    SameWhen(Intruder(r, q), su, PlaceAt(q, []), sp);
    BeyondMeets(Anchor(r), rem + "|", Anchor(q), "");
  }

  lemma {:induction false} ClashShows(r: Root, q: Root)
    requires ProperRoot(r) && ProperRoot(q) && Clash(r, q)
    ensures !RootsTold(r, q)
  {
    hide EntrySame, EntryOf, Anchor, Join, Segments, CanOpen;
    var s := Spelling(false, 0);
    if Anchor(r) == Anchor(q) {
      SameWhen(PlaceAt(r, []), s, PlaceAt(q, []), s);
      assert !Told(PlaceAt(r, []), PlaceAt(q, []));
    } else if Enters(r, q) {
      IntruderShares(r, q, s, s);
      assert !Told(Intruder(r, q), PlaceAt(q, []));
    } else {
      IntruderShares(q, r, s, s);
      SameWhen(Intruder(q, r), s, PlaceAt(r, []), s);
      SameWhen(PlaceAt(r, []), s, Intruder(q, r), s);
      assert !Told(PlaceAt(r, []), Intruder(q, r));
    }
  }

  /** Two roots' places are told apart by their keys, however spelled, exactly when
      the roots are one, or of different kinds, or neither anchor is the other
      one nor the other followed by a bar and something a path can open with. */
  lemma {:induction false} RootsToldExact(r: Root, q: Root)
    requires ProperRoot(r) && ProperRoot(q)
    ensures RootsTold(r, q) <==> !Clash(r, q)
  {
    hide EntrySame, EntryOf, Clash;
    if Clash(r, q) {
      ClashShows(r, q);
    } else {
      forall x, y, su, sp | Proper(x) && Proper(y)
        ensures EntrySame(EntryOf(PlaceAt(r, x), su), EntryOf(PlaceAt(q, y), sp)) <==> PlaceAt(r, x) == PlaceAt(q, y)
      {
        var u, p := PlaceAt(r, x), PlaceAt(q, y);
        if u != p && EntrySame(EntryOf(u, su), EntryOf(p, sp)) {
          SharedKeyClashes(u, su, p, sp);
        }
        if u == p {
          SameWhen(u, su, p, sp);
        }
      }
    }
  }

  // ---------- names without a bar ----------

  predicate Barless(r: Root) {
    '|' !in r.source && (r.InBucket? ==> '|' !in r.bucket)
  }

  lemma {:induction false} BarsOf(r: Root, i: nat)
    requires Barless(r) && i < |Anchor(r)| && Anchor(r)[i] == '|'
    ensures !r.OnRemote? && i == |r.source|
  {
    NoBars(r.source);
    if r.InBucket? {
      NoBars(r.bucket);
    }
  }

  lemma {:induction false} NoBars(s: string)
    requires '|' !in s
    ensures forall i | 0 <= i < |s| :: s[i] != '|'
  {
    forall i | 0 <= i < |s|
      ensures s[i] != '|'
    {
      assert s[i] in s;
    }
  }

  lemma {:induction false} BarlessKept(r: Root, q: Root)
    requires Barless(r) && Barless(q) && SameKind(r, q)
    ensures !Opens(Anchor(r), Anchor(q))
  {
    if Opens(Anchor(r), Anchor(q)) {
      var a, b := Anchor(r), Anchor(q);
      assert (a + "|")[|a|] == b[|a|] == '|';
      BarsOf(q, |a|);
      assert a[|r.source|] == (a + "|")[|r.source|] == b[|r.source|];
      BarsOf(q, |r.source|);
      assert false;
    }
  }

  lemma {:induction false} BarlessAnchors(r: Root, q: Root)
    requires Barless(r) && Barless(q) && SameKind(r, q) && Anchor(r) == Anchor(q) && ProperRoot(r) && ProperRoot(q)
    ensures r == q
  {
    if !r.OnRemote? {
      var a := Anchor(r);
      assert a[|r.source|] == '|';
      BarsOf(q, |r.source|);
      assert r.source == a[..|r.source|] && q.source == Anchor(q)[..|q.source|];
      assert (if r.InBucket? then r.bucket else "") == a[|r.source| + 1..];
      assert (if q.InBucket? then q.bucket else "") == a[|r.source| + 1..];
    }
  }

  /** So names without a bar never clash. */
  lemma {:induction false} BarlessTold(r: Root, q: Root)
    requires ProperRoot(r) && ProperRoot(q) && Barless(r) && Barless(q)
    ensures RootsTold(r, q)
  {
    hide RootsTold, Anchor, Barless, Opens;
    RootsToldExact(r, q);
    if Clash(r, q) {
      BarlessKept(r, q);
      BarlessKept(q, r);
      BarlessAnchors(r, q);
    }
  }

  /** Barred names are told apart too wherever neither opens into the other; where
      one does, two places share a key. */
  lemma {:induction false} BarredSources()
    ensures RootsTold(OnRemote("a|b"), OnRemote("a|b")) && RootsTold(OnRemote("a|b"), OnRemote("c|d"))
    ensures RootsTold(OnRemote("a"), OnRemote("a|/b")) && !RootsTold(OnRemote("a"), OnRemote("a|b"))
    ensures !RootsTold(InBucket("a", "b|c"), InBucket("a|b", "c"))
  {
    hide RootsTold;
    RootsToldExact(OnRemote("a|b"), OnRemote("a|b"));
    RootsToldExact(OnRemote("a|b"), OnRemote("c|d"));
    RootsToldExact(OnRemote("a"), OnRemote("a|/b"));
    RootsToldExact(OnRemote("a"), OnRemote("a|b"));
    RootsToldExact(InBucket("a", "b|c"), InBucket("a|b", "c"));
    assert "a" + "|" <= "a|b" && "a|b"[2..] == "b";
    assert "a|/b"[2..] == "/b";
    assert !("a|/b" + "|" <= "a") && ("a" + "|")[0] != "c|d"[0];
    assert "a" + "|" + "b|c" == "a|b" + "|" + "c";
  }
}
