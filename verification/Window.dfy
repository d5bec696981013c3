/** The sliding window as values: one function per grid operation, each the
    specification a method of Grid.Window is proved against. */
module WindowSpec {
  import opened Basics
  import opened Listing

  /** A slot of the held slice; None is a tombstone (`null`): a row owed. */
  type Cell = Option<Row>

  datatype Checkpoint = Checkpoint(after: string, index: nat)

  const RING_MAX := 192

  /** The window constants; every rig's retune keeps them at least 1. */
  datatype TuneRaw = Tune(first: nat, win: nat, max: nat, prefetch: nat, cap: nat)
  type Tuning = t: TuneRaw | t.first >= 1 && t.win >= 1 && t.max >= 1 && t.prefetch >= 1 && t.cap >= 1
    witness Tune(100000, 25000, 200000, 1500, 1000000)

  datatype State = State(
    all: seq<Cell>, base: nat, rows: seq<Row>, tops: seq<Checkpoint>,
    winTarget: nat, streaming: bool, streamDone: bool, universe: Option<nat>,
    needDown: bool, needUp: bool,
    upHit: bool, upDone: bool, upBuf: seq<Row>, upStart: nat, upScanned: nat)
  {
    /** The absolute index right past the last held slot. */
    function Edge(): nat { base + |all| }

    /** What the window shows at an absolute listing index. */
    function At(i: nat): Cell {
      if base <= i < Edge() then all[i - base] else None
    }

    function WindowFull(): bool { Edge() >= winTarget }
  }

  // ---------- slices and bands ----------

  /** The real rows of a slice, in order (`filter(Boolean)`). */
  function Held(all: seq<Cell>): seq<Row> {
    if all == [] then []
    else (if all[0].Some? then [all[0].value] else []) + Held(all[1..])
  }

  function Somes(rows: seq<Row>): (cells: seq<Cell>)
    ensures |cells| == |rows|
  {
    if rows == [] then [] else [Some(rows[0])] + Somes(rows[1..])
  }

  function Tombstones(n: nat): (cells: seq<Cell>)
    ensures |cells| == n
  {
    if n == 0 then [] else [None] + Tombstones(n - 1)
  }

  /** The length of the trailing tombstone band. */
  function Band(all: seq<Cell>): (b: nat)
    ensures b <= |all|
    ensures b < |all| ==> all[|all| - b - 1].Some?
  {
    if all == [] || all[|all| - 1].Some? then 0 else 1 + Band(all[..|all| - 1])
  }

  /** The highest key held; "" when nothing is. */
  function LastKey(all: seq<Cell>): string {
    if all == [] then ""
    else
      var k := LastKey(all[..|all| - 1]);
      var c := all[|all| - 1];
      if c.Some? && Less(k, c.value.key) then c.value.key else k
  }

  /** The rows that survive when the given cells leave the slice. */
  function Without(rows: seq<Row>, dropped: seq<Cell>): seq<Row> {
    if rows == [] then []
    else (if Some(rows[0]) in dropped then [] else [rows[0]]) + Without(rows[1..], dropped)
  }

  // ---------- the checkpoint ring ----------

  function RemoveAt<T>(s: seq<T>, i: nat): seq<T>
    requires i < |s|
  {
    s[..i] + s[i + 1..]
  }

  /** Drops positions i, i-2, ... down to 1 or 2. */
  function ThinFrom(tops: seq<Checkpoint>, i: int): seq<Checkpoint>
    requires i < |tops|
    decreases i
  {
    if i < 1 then tops else ThinFrom(RemoveAt(tops, i), i - 2)
  }

  function Clip(tops: seq<Checkpoint>): seq<Checkpoint> {
    if |tops| > RING_MAX then tops[..1] + tops[1 + (|tops| - RING_MAX)..] else tops
  }

  function PushTop(tops: seq<Checkpoint>, after: string, index: nat): seq<Checkpoint> {
    if tops != [] && tops[|tops| - 1].index == index then tops[..|tops| - 1] + [Checkpoint(after, index)]
    else
      var pushed := tops + [Checkpoint(after, index)];
      if |pushed| > RING_MAX then Clip(ThinFrom(pushed, |pushed| / 2 - 1)) else pushed
  }

  function BestFrom(tops: seq<Checkpoint>, index: nat, best: Checkpoint): Checkpoint {
    if tops == [] then best
    else BestFrom(tops[1..], index, if best.index <= tops[0].index <= index then tops[0] else best)
  }

  function TopBelow(tops: seq<Checkpoint>, index: nat): Checkpoint {
    if tops == [] then Checkpoint("", 0) else BestFrom(tops, index, tops[0])
  }

  // ---------- the downward side ----------

  /** A trailing band materializes first, the remainder pushes past the edge. */
  function AppendCells(all: seq<Cell>, rows: seq<Row>): seq<Cell> {
    all[..|all| - Min(Band(all), |rows|)] + Somes(rows)
  }

  function AppendRows(s: State, rows: seq<Row>): State {
    s.(all := AppendCells(s.all, rows), rows := s.rows + rows)
  }

  /** How many rows of an n-row page the window's absolute budget lets in. */
  function AcceptCount(s: State, n: nat): (k: nat)
    ensures k <= n
  {
    if s.winTarget <= s.Edge() then 0 else Min(n, s.winTarget - s.Edge())
  }

  /** The boundary checkpoint of a cut: its last real row binds the index
      behind it; a cut of tombstones has no key to bind. */
  function CutTops(tops: seq<Checkpoint>, base: nat, head: seq<Cell>): seq<Checkpoint> {
    var lastReal := |head| - Band(head);
    if lastReal == 0 then tops else PushTop(tops, head[lastReal - 1].value.key, base + lastReal)
  }

  function CutHead(s: State, cut: nat): State
    requires cut <= |s.all|
  {
    s.(all := s.all[cut..], base := s.base + cut, rows := Without(s.rows, s.all[..cut]),
       tops := CutTops(s.tops, s.base, s.all[..cut]))
  }

  /** How many slots a trim drops: past the ceiling, never past `safe`. */
  function CutOf(s: State, t: Tuning, safe: nat): (cut: nat)
    ensures cut == 0 || cut < |s.all|
  {
    Min(Max(|s.all| - t.max, 0), safe)
  }

  /** `safe` is how many head slots the scroll position lets go. */
  function TrimTop(s: State, t: Tuning, safe: nat): State {
    if CutOf(s, t, safe) == 0 then s else CutHead(s, CutOf(s, t, safe))
  }

  /** A page boundary seats the edge's checkpoint. */
  function PushEdge(s: State): State {
    s.(tops := PushTop(s.tops, LastKey(s.all), s.Edge()))
  }

  function Land(s: State, t: Tuning, acc: seq<Row>, safe: nat): State {
    if acc == [] then s else TrimTop(PushEdge(AppendRows(s, acc)), t, safe)
  }

  function AppendStreamRows(s: State, t: Tuning, rows: seq<Row>, safe: nat): State {
    Land(s, t, rows[..AcceptCount(s, |rows|)], safe)
  }

  function SettleDown(s: State, done: bool): State {
    if !s.streaming && !s.needDown && !s.needUp then s
    else if done then
      s.(needDown := false, streamDone := true, universe := Some(s.Edge()), rows := Held(s.all))
    else s.(needDown := false, rows := Held(s.all))
  }

  function FireDown(s: State, t: Tuning): State {
    if s.needDown || s.needUp then s
    else s.(needDown := true, winTarget := s.Edge() + t.win)
  }

  // ---------- the upward side ----------

  /** Where the walk over a back page stops: position `stop`, the last `take`
      positions before it accepted. */
  datatype Walk = Walk(stop: nat, take: nat, hit: bool, scanned: nat)

  function WalkBack(s: State, t: Tuning, at: nat, n: nat, k: nat, take: nat, scanned: nat): (w: Walk)
    requires take <= k <= n
    ensures w.take <= w.stop <= n
    decreases n - k
  {
    if k >= n || |s.upBuf| + take >= t.win then Walk(k, take, false, scanned)
    else if s.At(at + k).Some? then
      if take > 0 then Walk(k, take, true, scanned)
      else if scanned + 1 >= t.first then Walk(k, take, true, scanned + 1)
      else WalkBack(s, t, at, n, k + 1, take, scanned + 1)
    else if at + k >= s.Edge() then Walk(k, take, true, scanned)
    else WalkBack(s, t, at, n, k + 1, take + 1, scanned)
  }

  function WalkPage(s: State, t: Tuning, at: nat, n: nat): (w: Walk)
    ensures w.take <= w.stop <= n
  {
    WalkBack(s, t, at, n, 0, 0, s.upScanned)
  }

  /** `at` is the listing index the host says the page starts at (cp.index). */
  function AppendBackRows(s: State, t: Tuning, rows: seq<Row>, done: bool, at: nat): State {
    var w := WalkPage(s, t, at, |rows|);
    s.(upDone := s.upDone || done,
       upHit := s.upHit || w.hit,
       upScanned := w.scanned,
       upStart := if s.upBuf == [] && w.take > 0 then at + w.stop - w.take else s.upStart,
       upBuf := s.upBuf + rows[w.stop - w.take..w.stop],
       tops := if rows != [] then PushTop(s.tops, rows[|rows| - 1].key, at + |rows|) else s.tops)
  }

  function BackfillDone(s: State, t: Tuning): bool {
    s.upDone || s.upHit || |s.upBuf| >= t.win
  }

  /** A fill's rows at their slots: prepended (with a tombstoned gap, or dropping
      an overlap) or spliced inside the held span. */
  function SeatCells(all: seq<Cell>, base: nat, buf: seq<Row>, start: nat): seq<Cell> {
    if start <= base then
      var gap := base - start - |buf|;
      Somes(buf) + Tombstones(Max(gap, 0)) + all[Min(Max(-gap, 0), |all|)..]
    else
      var rel := Min(start - base, |all|);
      all[..rel] + Somes(buf) + all[Min(rel + |buf|, |all|)..]
  }

  function Seat(s: State): State {
    s.(all := SeatCells(s.all, s.base, s.upBuf, s.upStart), base := Min(s.base, s.upStart))
  }

  function CutTail(s: State, cut: nat): State
    requires cut <= |s.all|
  {
    s.(all := s.all[..|s.all| - cut], rows := Without(s.rows, s.all[|s.all| - cut..]))
  }

  /** `safe` is how many tail slots the scroll position lets go. */
  function TrimBottom(s: State, t: Tuning, safe: nat): State {
    if CutOf(s, t, safe) == 0 then s else CutTail(s, CutOf(s, t, safe))
  }

  /** The fill seated, its buffer spent, its end seating a checkpoint. */
  function Landed(s: State): State
    requires s.upBuf != []
  {
    Seat(s).(upBuf := [], tops := PushTop(s.tops, s.upBuf[|s.upBuf| - 1].key, s.upStart + |s.upBuf|))
  }

  function SettleUp(s: State, t: Tuning, safe: nat): State {
    if !s.needUp && s.upBuf == [] then s
    else
      var s1 :=
        if s.upBuf == [] then s
        else
          var cut := TrimBottom(Landed(s), t, safe);
          cut.(rows := Held(cut.all));
      s1.(needUp := false, upHit := false, upScanned := 0)
  }

  // ---------- demand ----------

  datatype Demand = Nothing | WantUp(cp: Checkpoint) | WantDown

  function Floor(x: real): nat
    requires x >= 0.0
  {
    x.Floor
  }

  /** A slot the viewport (with its prefetch reach above) can see is owed. */
  predicate Missing(s: State, t: Tuning, absTop: real, absBot: real)
    requires 0.0 <= absTop <= absBot
  {
    var reach := absTop - t.prefetch as real;
    var relTop := Floor(if reach > 0.0 then reach else 0.0) - s.base;
    relTop < 0 || exists k | 0 <= k < |s.all| :: relTop <= k <= Floor(absBot) - s.base && s.all[k] == None
  }

  /** checkNeed in windowed mode; absTop and absBot are the viewport's edges in
      listing space, `backoff` the pause after a failed fetch. */
  function Need(s: State, t: Tuning, absTop: real, absBot: real, backoff: bool): Demand
    requires 0.0 <= absTop <= absBot
  {
    if !s.streaming || s.needDown || s.needUp || backoff then Nothing
    else if Missing(s, t, absTop, absBot) then WantUp(TopBelow(s.tops, Floor(absTop)))
    else if !(s.streamDone && (s.universe.None? || s.Edge() >= s.universe.value))
            && absBot + t.prefetch as real >= s.Edge() as real then WantDown
    else Nothing
  }

  function Raise(s: State, t: Tuning, d: Demand): State {
    match d
    case Nothing => s
    case WantUp(_) => s.(needUp := true, upScanned := 0)
    case WantDown => FireDown(s, t)
  }

  // ---------- the host's page handlers ----------

  /** A done page puts in what the budget left out and closes the listing; a full
      window ends its fetch only. */
  function FinishPage(s: State, tail: seq<Row>, done: bool): State {
    if done then SettleDown(AppendRows(s, tail), true)
    else if s.WindowFull() then SettleDown(s, false)
    else s
  }

  function DownPage(s: State, t: Tuning, rows: seq<Row>, done: bool, safe: nat): State {
    FinishPage(AppendStreamRows(s, t, rows, safe), rows[AcceptCount(s, |rows|)..], done)
  }

  function UpPage(s: State, t: Tuning, rows: seq<Row>, done: bool, at: nat, safe: nat): State {
    var s1 := AppendBackRows(s, t, rows, done, at);
    if done || BackfillDone(s1, t) then SettleUp(s1, t, safe) else s1
  }

  /** setRows([]) followed by beginStream(). */
  function Opened(t: Tuning): State {
    State([], 0, [], [Checkpoint("", 0)], t.first, true, false, None, true, false, false, false, [], 0, 0)
  }
}
