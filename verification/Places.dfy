/** Locations of the main view and history entries of the side pane, and the two
    ancestor tests that must mean the same thing. */
module Places {
  import opened Basics

  // ---------- slashes ----------

  /** replace(/\/+$/, '') */
  function StripTail(s: string): (r: string)
    ensures r <= s && (r != "" ==> r[|r| - 1] != '/')
  {
    if s != "" && s[|s| - 1] == '/' then StripTail(s[..|s| - 1]) else s
  }

  /** replace(/^\/+/, '') */
  function StripHead(s: string): string {
    if s != "" && s[0] == '/' then StripHead(s[1..]) else s
  }

  /** lastIndexOf('/') */
  function LastSlash(s: string): (i: int)
    ensures -1 <= i < |s| && (i >= 0 ==> s[i] == '/')
  {
    if s == "" then -1 else if s[|s| - 1] == '/' then |s| - 1 else LastSlash(s[..|s| - 1])
  }

  /** Everything up to and with the last slash, trailing ones aside. */
  function ParentPath(path: string): string {
    var p := StripTail(path);
    p[..LastSlash(p) + 1]
  }

  function Norm(path: string): string {
    StripTail(StripHead(path))
  }

  // ---------- the main view's locations ----------

  datatype Loc =
    | Buckets(source: string)
    | Objects(source: string, bucket: string, prefix: string)
    | Remote(source: string, path: string)

  function ParentOf(l: Loc): Option<Loc> {
    match l
    case Buckets(_) => None
    case Remote(source, path) =>
      if path == "" || path == "/" then None else Some(Remote(source, ParentPath(path)))
    case Objects(source, bucket, prefix) =>
      if prefix == "" then Some(Buckets(source)) else Some(Objects(source, bucket, ParentPath(prefix)))
  }

  predicate SameLoc(a: Loc, b: Loc) {
    a.source == b.source &&
    match (a, b)
    case (Buckets(_), Buckets(_)) => true
    case (Remote(_, p), Remote(_, q)) => Norm(p) == Norm(q)
    case (Objects(_, c, p), Objects(_, d, q)) => c == d && StripTail(p) == StripTail(q)
    case _ => false
  }

  const HOPS := 128

  /** `up` is met among the next `hops` parents of `cur`. */
  predicate Climbs(up: Loc, cur: Loc, hops: nat)
    decreases hops
  {
    hops > 0 && ParentOf(cur).Some? &&
    (SameLoc(ParentOf(cur).value, up) || Climbs(up, ParentOf(cur).value, hops - 1))
  }

  lemma {:induction false} ClimbsOne(up: Loc, cur: Loc, hops: nat)
    ensures Climbs(up, cur, hops) <==>
            hops > 0 && ParentOf(cur).Some? &&
            (SameLoc(ParentOf(cur).value, up) || Climbs(up, ParentOf(cur).value, hops - 1))
  {
  }

  method IsAncestorLoc(up: Loc, loc: Loc) returns (b: bool)
    ensures b == Climbs(up, loc, HOPS)
  {
    hide Climbs, SameLoc, ParentOf;
    var cur := loc;
    var i := 0;
    while i < HOPS
      invariant 0 <= i <= HOPS && Climbs(up, loc, HOPS) == Climbs(up, cur, HOPS - i)
    {
      ClimbsOne(up, cur, HOPS - i);
      var parent := ParentOf(cur);
      if parent.None? {
        return false;
      }
      cur := parent.value;
      if SameLoc(cur, up) {
        return true;
      }
      i := i + 1;
    }
    ClimbsOne(up, cur, HOPS - i);
    return false;
  }

  /** A parent's path is strictly shorter, whatever the spelling. */
  lemma {:induction false} ParentShortens(l: Loc)
    requires ParentOf(l).Some? && ParentOf(l).value.Buckets? == false
    ensures l.Remote? ==> ParentOf(l).value.Remote? && |ParentOf(l).value.path| < |l.path|
    ensures l.Objects? ==> ParentOf(l).value.Objects? && |ParentOf(l).value.prefix| < |l.prefix|
  {
    var path := if l.Remote? then l.path else l.prefix;
    var p := StripTail(path);
    assert LastSlash(p) + 1 < |p| || p == "";
  }

  // ---------- the pane's entries ----------

  datatype Entry = RemoteEntry(source: string, dir: string) | S3Entry(source: string, bucket: string, dir: string)

  function EntryKey(e: Entry): string {
    match e
    case RemoteEntry(source, dir) => "remote|" + source + "|" + Norm(dir)
    case S3Entry(source, bucket, dir) => "s3|" + source + "|" + bucket + "|" + Norm(dir)
  }

  predicate EntrySame(a: Entry, b: Entry) {
    (a.RemoteEntry? <==> b.RemoteEntry?) && EntryKey(a) == EntryKey(b)
  }

  predicate EntryAncestorOf(up: Entry, cur: Entry) {
    && (up.RemoteEntry? <==> cur.RemoteEntry?)
    && up.source == cur.source
    && (up.S3Entry? ==> up.bucket == "" || up.bucket == cur.bucket)
    && ((up.S3Entry? && up.bucket == "") ||
        (Norm(up.dir) != Norm(cur.dir) && (Norm(up.dir) == "" || Norm(up.dir) + "/" <= Norm(cur.dir))))
  }

  // ---------- places and their spellings ----------

  /** A place named by its segments, however its path is spelled. */
  datatype Place =
    | RemotePlace(source: string, segs: seq<string>)
    | BucketPlace(source: string, bucket: string, segs: seq<string>)
    | BucketsPlace(source: string)

  /** A leading slash or none (remote paths only), any number of trailing ones. */
  datatype Spelling = Spelling(lead: bool, trail: nat)

  predicate IsSegment(s: string) {
    s != "" && '/' !in s
  }

  predicate Proper(segs: seq<string>) {
    forall s | s in segs :: IsSegment(s)
  }

  predicate ProperPlace(p: Place) {
    match p
    case RemotePlace(_, segs) => Proper(segs)
    case BucketPlace(_, bucket, segs) => bucket != "" && Proper(segs)
    case BucketsPlace(_) => true
  }

  function Join(segs: seq<string>): string {
    if segs == [] then "" else if |segs| == 1 then segs[0] else segs[0] + "/" + Join(segs[1..])
  }

  function Slashes(n: nat): string {
    if n == 0 then "" else Slashes(n - 1) + "/"
  }

  function Path(segs: seq<string>, sp: Spelling): string {
    if segs == [] then if sp.lead then "/" else ""
    else (if sp.lead then "/" else "") + Join(segs) + Slashes(sp.trail)
  }

  function LocOf(p: Place, sp: Spelling): Loc {
    match p
    case RemotePlace(source, segs) => Remote(source, Path(segs, sp))
    case BucketPlace(source, bucket, segs) => Objects(source, bucket, Path(segs, sp.(lead := false)))
    case BucketsPlace(source) => Buckets(source)
  }

  function EntryOf(p: Place, sp: Spelling): Entry {
    match p
    case RemotePlace(source, segs) => RemoteEntry(source, Path(segs, sp))
    case BucketPlace(source, bucket, segs) => S3Entry(source, bucket, Path(segs, sp.(lead := false)))
    case BucketsPlace(source) => S3Entry(source, "", "")
  }

  /** Strictly above in the same lineage: a proper segment prefix in the same
      source and bucket, or the buckets view above anything in a bucket. */
  predicate Above(u: Place, p: Place) {
    u.source == p.source &&
    match (u, p)
    case (RemotePlace(_, x), RemotePlace(_, y)) => x < y
    case (BucketPlace(_, b, x), BucketPlace(_, c, y)) => b == c && x < y
    case (BucketsPlace(_), BucketPlace(_, _, _)) => true
    case _ => false
  }

  function Depth(p: Place): nat {
    match p
    case RemotePlace(_, segs) => |segs|
    case BucketPlace(_, _, segs) => 1 + |segs|
    case BucketsPlace(_) => 0
  }

  // ---------- joins ----------

  lemma {:induction false} JoinEnds(segs: seq<string>)
    requires Proper(segs) && segs != []
    ensures Join(segs) != "" && Join(segs)[0] != '/' && Join(segs)[|Join(segs)| - 1] != '/'
    ensures Join(segs)[0] == segs[0][0]
  {
    assert segs[0] in segs;
    if |segs| > 1 {
      JoinEnds(segs[1..]);
    }
  }

  lemma {:induction false} JoinLast(segs: seq<string>)
    requires |segs| > 1
    ensures Join(segs) == Join(segs[..|segs| - 1]) + "/" + segs[|segs| - 1]
  {
    if |segs| > 2 {
      JoinLast(segs[1..]);
      assert segs[1..][..|segs| - 2] == segs[..|segs| - 1][1..];
      assert Join(segs[..|segs| - 1]) == segs[0] + "/" + Join(segs[..|segs| - 1][1..]);
    } else {
      assert segs[1..] == [segs[1]] && segs[..1] == [segs[0]];
    }
  }

  /** Splitting at the first slash is unambiguous. */
  lemma {:induction false} FirstSlash(a: string, x: string, b: string, y: string)
    requires '/' !in a && '/' !in b && a + "/" + x == b + "/" + y
    ensures a == b && x == y
  {
    var s := a + "/" + x;
    assert s[|a|] == '/' && s[|b|] == '/';
    assert forall i | 0 <= i < |a| :: s[i] == a[i] && s[i] in a;
    assert forall i | 0 <= i < |b| :: s[i] == b[i] && s[i] in b;
    assert |a| == |b|;
    assert a == s[..|a|] && b == s[..|b|];
    assert x == s[|a| + 1..] && y == s[|b| + 1..];
  }

  lemma {:induction false} JoinHasSlash(segs: seq<string>)
    requires Proper(segs)
    ensures '/' in Join(segs) <==> |segs| > 1
  {
    if |segs| == 1 {
      assert segs[0] in segs;
    } else if |segs| > 1 {
      assert Join(segs)[|segs[0]|] == '/';
    }
  }

  lemma {:induction false} JoinInjective(x: seq<string>, y: seq<string>)
    requires Proper(x) && Proper(y) && Join(x) == Join(y)
    ensures x == y
  {
    if x == [] || y == [] {
      if x != [] { JoinEnds(x); }
      if y != [] { JoinEnds(y); }
    } else {
      JoinHasSlash(x);
      JoinHasSlash(y);
      assert x[0] in x && y[0] in y;
      if |x| > 1 {
        FirstSlash(x[0], Join(x[1..]), y[0], Join(y[1..]));
        JoinInjective(x[1..], y[1..]);
        assert x == [x[0]] + x[1..] && y == [y[0]] + y[1..];
      }
    }
  }

  /** The pane's prefix test on joins is the proper-prefix test on segments. */
  lemma {:induction false} JoinPrefix(x: seq<string>, y: seq<string>)
    requires Proper(x) && Proper(y)
    ensures (Join(x) != Join(y) && (Join(x) == "" || Join(x) + "/" <= Join(y))) <==> x < y
  {
    if x == [] {
      if y != [] { JoinEnds(y); }
    } else {
      JoinEnds(x);
      if Join(x) + "/" <= Join(y) {
        PrefixMeansSegments(x, y);
      }
      if x < y {
        SegmentsMeanPrefix(x, y);
      }
    }
  }

  lemma {:induction false} SegmentsMeanPrefix(x: seq<string>, y: seq<string>)
    requires Proper(x) && Proper(y) && x != [] && x < y
    ensures Join(x) + "/" <= Join(y) && Join(x) != Join(y)
  {
    assert y[0] == x[0];
    if |x| > 1 {
      assert x[1..] < y[1..];
      SegmentsMeanPrefix(x[1..], y[1..]);
    } else {
      assert Join(y) == x[0] + "/" + Join(y[1..]);
    }
  }

  lemma {:induction false} JoinCons(segs: seq<string>)
    requires segs != []
    ensures Join(segs) == if |segs| == 1 then segs[0] else segs[0] + "/" + Join(segs[1..])
  {
  }

  /** What follows the first segment of a join, behind the prefix test. */
  lemma {:induction false} PrefixTail(x: seq<string>, rest: string)
    requires x != []
    ensures Join(x) + "/" + rest == x[0] + "/" + (if |x| == 1 then rest else Join(x[1..]) + "/" + rest)
  {
    hide Join;
    JoinCons(x);
    if |x| > 1 {
      assert x[0] + "/" + Join(x[1..]) + "/" + rest == x[0] + "/" + (Join(x[1..]) + "/" + rest);
    }
  }

  lemma {:induction false} SlashInside(a: string, rest: string)
    ensures '/' in a + "/" + rest
  {
    assert (a + "/" + rest)[|a|] == '/';
  }

  lemma {:induction false} PrefixMeansSegments(x: seq<string>, y: seq<string>)
    requires Proper(x) && Proper(y) && x != [] && Join(x) + "/" <= Join(y)
    ensures x < y
  {
    hide Join;
    var rest := Join(y)[|Join(x)| + 1..];
    assert Join(y) == Join(x) + "/" + rest;
    JoinHasSlash(y);
    SlashInside(Join(x), rest);
    JoinCons(y);
    assert x[0] in x && y[0] in y;
    var tail := if |x| == 1 then rest else Join(x[1..]) + "/" + rest;
    PrefixTail(x, rest);
    FirstSlash(x[0], tail, y[0], Join(y[1..]));
    if |x| > 1 {
      PrefixMeansSegments(x[1..], y[1..]);
    }
    assert x == [x[0]] + x[1..] && y == [y[0]] + y[1..];
  }

  // ---------- spellings ----------

  lemma {:induction false} StripSlashes(s: string, n: nat)
    ensures StripTail(s + Slashes(n)) == StripTail(s)
  {
    if n > 0 {
      var t := s + Slashes(n);
      assert t == (s + Slashes(n - 1)) + "/";
      assert t[..|t| - 1] == s + Slashes(n - 1);
      StripSlashes(s, n - 1);
    } else {
      assert s + "" == s;
    }
  }

  /** Trailing slashes strip away, a leading one stays. */
  lemma {:induction false} StripPath(segs: seq<string>, sp: Spelling)
    requires Proper(segs) && segs != []
    ensures StripTail(Path(segs, sp)) == (if sp.lead then "/" else "") + Join(segs)
  {
    JoinEnds(segs);
    var s := (if sp.lead then "/" else "") + Join(segs);
    assert s[|s| - 1] == Join(segs)[|Join(segs)| - 1];
    StripSlashes(s, sp.trail);
  }

  lemma {:induction false} StripLead(bare: string, lead: bool)
    requires bare != "" && bare[0] != '/'
    ensures StripHead((if lead then "/" else "") + bare) == bare
  {
    assert ("/" + bare)[1..] == bare && "" + bare == bare;
  }

  lemma {:induction false} PathIs(segs: seq<string>, sp: Spelling)
    requires segs != []
    ensures Path(segs, sp) == (if sp.lead then "/" else "") + (Join(segs) + Slashes(sp.trail))
    ensures !sp.lead ==> Path(segs, sp) == Join(segs) + Slashes(sp.trail)
  {
    hide Join, Slashes;
    assert (if sp.lead then "/" else "") + Join(segs) + Slashes(sp.trail) ==
           (if sp.lead then "/" else "") + (Join(segs) + Slashes(sp.trail));
  }

  lemma {:induction false} NormPath(segs: seq<string>, sp: Spelling)
    requires Proper(segs)
    ensures Norm(Path(segs, sp)) == Join(segs)
  {
    hide StripTail, StripHead, Join, Slashes, Path;
    if segs == [] {
      NormRoot(sp);
    } else {
      JoinEnds(segs);
      StripLead(Join(segs) + Slashes(sp.trail), sp.lead);
      PathIs(segs, sp);
      PathIs(segs, Spelling(false, sp.trail));
      StripPath(segs, Spelling(false, sp.trail));
      assert "" + Join(segs) == Join(segs);
    }
  }

  predicate AllSlashes(s: string) {
    forall i | 0 <= i < |s| :: s[i] == '/'
  }

  predicate Between(path: string, r: string, a: string, b: string) {
    path == a + r + b && AllSlashes(a) && AllSlashes(b)
  }

  predicate Bare(r: string) {
    r != "" ==> r[0] != '/' && r[|r| - 1] != '/'
  }

  lemma {:induction false} HeadOff(s: string) returns (a: string)
    ensures s == a + StripHead(s) && AllSlashes(a) && (StripHead(s) != "" ==> StripHead(s)[0] != '/')
  {
    if s != "" && s[0] == '/' {
      var a' := HeadOff(s[1..]);
      a := "/" + a';
      assert s == "/" + s[1..];
    } else {
      a := "";
    }
  }

  lemma {:induction false} TailOff(s: string) returns (b: string)
    ensures s == StripTail(s) + b && AllSlashes(b)
  {
    if s != "" && s[|s| - 1] == '/' {
      var b' := TailOff(s[..|s| - 1]);
      b := b' + "/";
      assert s == s[..|s| - 1] + "/";
    } else {
      b := "";
    }
  }

  lemma {:induction false} BetweenOnce(path: string, r: string, a: string, b: string, q: string, c: string, d: string)
    requires Between(path, r, a, b) && Bare(r) && Between(path, q, c, d) && Bare(q)
    ensures r == q
  {
    if r != "" {
      assert path[|a|] == r[0] && path[|a| + |r| - 1] == r[|r| - 1];
    }
    if q != "" {
      assert path[|c|] == q[0] && path[|c| + |q| - 1] == q[|q| - 1];
    }
    assert r == path[|a|..|a| + |r|] && q == path[|c|..|c| + |q|];
  }

  /** A normalized path is the path less all slashes at its ends, however many, and
      nothing else. */
  lemma {:induction false} NormExact(path: string, r: string)
    ensures Norm(path) == r <==> Bare(r) && exists a, b :: Between(path, r, a, b)
  {
    hide StripHead, StripTail;
    var a := HeadOff(path);
    var b := TailOff(StripHead(path));
    var n := Norm(path);
    assert path == a + n + b;
    assert Between(path, n, a, b);
    if n != "" {
      assert StripHead(path)[0] == n[0];
    }
    if Bare(r) && exists c, d :: Between(path, r, c, d) {
      var c, d :| Between(path, r, c, d);
      BetweenOnce(path, n, a, b, r, c, d);
    }
  }

  lemma {:induction false} NormRoot(sp: Spelling)
    ensures Norm(Path([], sp)) == Join([])
  {
    assert "/"[1..] == "";
  }

  lemma {:induction false} LastSlashAt(s: string, t: string)
    requires '/' !in t
    ensures LastSlash(s + "/" + t) == |s|
  {
    var u := s + "/" + t;
    if t != "" {
      assert u[|u| - 1] == t[|t| - 1] && t[|t| - 1] in t;
      assert u[..|u| - 1] == s + "/" + t[..|t| - 1];
      LastSlashAt(s, t[..|t| - 1]);
    }
  }

  lemma {:induction false} NoSlashAt(t: string)
    requires '/' !in t
    ensures LastSlash(t) == -1
  {
    if t != "" {
      assert t[|t| - 1] in t;
      NoSlashAt(t[..|t| - 1]);
    }
  }

  lemma {:induction false} CutLast(front: string, last: string)
    requires '/' !in last
    ensures var s := front + "/" + last; s[..LastSlash(s) + 1] == front + "/"
  {
    hide LastSlash;
    LastSlashAt(front, last);
  }

  lemma {:induction false} CutOnly(last: string)
    requires '/' !in last
    ensures last[..LastSlash(last) + 1] == ""
  {
    NoSlashAt(last);
  }

  lemma {:induction false} ParentPathOne(segs: seq<string>, sp: Spelling)
    requires Proper(segs) && |segs| == 1
    ensures ParentPath(Path(segs, sp)) == Path([], sp)
  {
    hide StripTail, LastSlash, Join, Slashes;
    StripPath(segs, sp);
    JoinOne(segs);
    var last := segs[0];
    assert last in segs;
    if sp.lead {
      CutLast("", last);
      assert "" + "/" + last == "/" + last && "" + "/" == "/";
    } else {
      CutOnly(last);
      assert "" + last == last;
    }
  }

  /** The parent's path drops the last segment and keeps the leading slash. */
  lemma {:induction false} ParentPathIs(segs: seq<string>, sp: Spelling)
    requires Proper(segs) && segs != []
    ensures ParentPath(Path(segs, sp)) == Path(segs[..|segs| - 1], Spelling(sp.lead, 1))
  {
    hide StripTail, LastSlash, Join, Slashes;
    var front, last := segs[..|segs| - 1], segs[|segs| - 1];
    assert last in segs;
    if |segs| == 1 {
      ParentPathOne(segs, sp);
    } else {
      var lead := if sp.lead then "/" else "";
      StripPath(segs, sp);
      JoinLast(segs);
      CutLast(lead + Join(front), last);
      assert lead + Join(segs) == lead + Join(front) + "/" + last;
      OneSlash();
    }
  }

  lemma {:induction false} OneSlash()
    ensures Slashes(1) == "/"
  {
  }

  lemma {:induction false} JoinOne(segs: seq<string>)
    requires |segs| == 1
    ensures Join(segs) == segs[0]
  {
  }

  // ---------- the climb ----------

  function Parent(p: Place): Option<Place> {
    match p
    case RemotePlace(source, segs) => if segs == [] then None else Some(RemotePlace(source, segs[..|segs| - 1]))
    case BucketPlace(source, bucket, segs) =>
      Some(if segs == [] then BucketsPlace(source) else BucketPlace(source, bucket, segs[..|segs| - 1]))
    case BucketsPlace(_) => None
  }

  /** parentOf climbs one place, whatever the spelling. */
  lemma {:induction false} ParentOfPlace(p: Place, sp: Spelling)
    requires ProperPlace(p)
    ensures ParentOf(LocOf(p, sp)) ==
            match Parent(p) case None => None case Some(q) => Some(LocOf(q, Spelling(sp.lead, 1)))
    ensures Parent(p).Some? ==> ProperPlace(Parent(p).value)
  {
    hide ParentPath, Join;
    match p
    case RemotePlace(source, segs) =>
      if segs != [] {
        ParentPathIs(segs, sp);
        PathNotRoot(segs, sp);
      }
    case BucketPlace(source, bucket, segs) =>
      if segs != [] {
        ParentPathIs(segs, sp.(lead := false));
        PathNotRoot(segs, sp.(lead := false));
      }
    case BucketsPlace(_) =>
  }

  lemma {:induction false} PathNotRoot(segs: seq<string>, sp: Spelling)
    requires Proper(segs) && segs != []
    ensures Path(segs, sp) != "" && Path(segs, sp) != "/"
  {
    JoinEnds(segs);
    var lead := if sp.lead then "/" else "";
    assert Path(segs, sp)[|lead|] == Join(segs)[0];
  }

  /** sameLoc compares places, not spellings. */
  lemma {:induction false} SameLocExact(p: Place, sp: Spelling, q: Place, sq: Spelling)
    requires ProperPlace(p) && ProperPlace(q)
    ensures SameLoc(LocOf(p, sp), LocOf(q, sq)) <==> p == q
  {
    hide Norm, StripTail, Join, Path;
    match (p, q) {
      case (RemotePlace(_, x), RemotePlace(_, y)) =>
        NormPath(x, sp);
        NormPath(y, sq);
        if Join(x) == Join(y) { JoinInjective(x, y); }
      case (BucketPlace(_, _, x), BucketPlace(_, _, y)) =>
        StripPrefix(x, sp.(lead := false));
        StripPrefix(y, sq.(lead := false));
        if Join(x) == Join(y) { JoinInjective(x, y); }
      case _ =>
    }
  }

  lemma {:induction false} StripPrefix(segs: seq<string>, sp: Spelling)
    requires Proper(segs) && !sp.lead
    ensures StripTail(Path(segs, sp)) == Join(segs)
  {
    if segs != [] {
      StripPath(segs, sp);
      assert "" + Join(segs) == Join(segs);
    }
  }

  /** The bounded climb meets exactly the places strictly above within its hops. */
  lemma {:induction false} ClimbExact(u: Place, su: Spelling, p: Place, sp: Spelling, hops: nat)
    requires ProperPlace(u) && ProperPlace(p)
    ensures Climbs(LocOf(u, su), LocOf(p, sp), hops) <==> Above(u, p) && Depth(p) - Depth(u) <= hops
    decreases hops
  {
    hide LocOf, ParentOf, SameLoc;
    if hops > 0 {
      ParentOfPlace(p, sp);
      if Parent(p).Some? {
        var q := Parent(p).value;
        SameLocExact(q, Spelling(sp.lead, 1), u, su);
        ClimbExact(u, su, q, Spelling(sp.lead, 1), hops - 1);
        AboveStep(u, p, q);
      }
    }
  }

  lemma {:induction false} AboveStep(u: Place, p: Place, q: Place)
    requires Parent(p) == Some(q)
    ensures Above(u, p) <==> q == u || Above(u, q)
    ensures Depth(p) == Depth(q) + 1 && (Above(u, q) ==> Depth(u) < Depth(q))
  {
  }

  /** isAncestorLoc means "strictly above, within 128 hops", for every spelling. */
  lemma {:induction false} NavAncestorExact(u: Place, su: Spelling, p: Place, sp: Spelling)
    requires ProperPlace(u) && ProperPlace(p)
    ensures Climbs(LocOf(u, su), LocOf(p, sp), HOPS) <==> Above(u, p) && Depth(p) - Depth(u) <= HOPS
  {
    ClimbExact(u, su, p, sp, HOPS);
  }

  /** entryAncestorOf means "strictly above" - save that the buckets view also
      stands above itself. */
  lemma {:induction false} PaneAncestorExact(u: Place, su: Spelling, p: Place, sp: Spelling)
    requires ProperPlace(u) && ProperPlace(p)
    ensures EntryAncestorOf(EntryOf(u, su), EntryOf(p, sp)) <==> Above(u, p) || (u.BucketsPlace? && u == p)
  {
    hide Norm, Join, Path;
    match (u, p) {
      case (RemotePlace(_, x), RemotePlace(_, y)) =>
        NormPath(x, su);
        NormPath(y, sp);
        JoinPrefix(x, y);
      case (BucketPlace(_, _, x), BucketPlace(_, _, y)) =>
        NormPath(x, su.(lead := false));
        NormPath(y, sp.(lead := false));
        JoinPrefix(x, y);
      case _ =>
    }
  }

  /** The two tests agree exactly where the climb is no longer than 128 hops and
      the question is not whether the buckets view lies above itself. */
  lemma {:induction false} AncestorTestsAgree(u: Place, su: Spelling, p: Place, sp: Spelling)
    requires ProperPlace(u) && ProperPlace(p)
    ensures (Climbs(LocOf(u, su), LocOf(p, sp), HOPS) <==> EntryAncestorOf(EntryOf(u, su), EntryOf(p, sp))) <==>
            !(Above(u, p) && Depth(p) - Depth(u) > HOPS) && !(u.BucketsPlace? && u == p)
  {
    hide LocOf, EntryOf, EntryAncestorOf, Climbs, Above, Depth;
    NavAncestorExact(u, su, p, sp);
    PaneAncestorExact(u, su, p, sp);
    AboveIrreflexive(u);
  }

  lemma {:induction false} AboveIrreflexive(u: Place)
    ensures !Above(u, u)
  {
  }
}
