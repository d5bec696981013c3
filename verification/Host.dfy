/** The view that owns a grid and its one stream slot: the host events as methods,
    each a session step that keeps the window invariant. */
module Host {
  import opened Basics
  import opened Listing
  import opened WindowSpec
  import opened WindowSlices
  import opened WindowLaws
  import opened WindowRuns
  import opened WindowSlots
  import opened WindowRefresh
  import Grid

  class ListingView {
    const grid: Grid.Window
    ghost const L: seq<Row>
    ghost var wire: Wire

    ghost function Now(): Session
      reads this, grid
    {
      Session(grid.View(), wire)
    }

    ghost predicate Valid()
      reads this, grid
    {
      Ascending(L) && Inv(Now(), L)
    }

    /** Every slot true, on whatever ring. */
    ghost predicate SlotsValid()
      reads this, grid
    {
      Ascending(L) && SlotInv(Now(), L)
    }

    /** A navigation: an emptied grid, an opened session, the first walk under way. */
    constructor (t: Tuning, ghost L: seq<Row>)
      requires Ascending(L)
      ensures Valid() && fresh(grid) && grid.tune == t && this.L == L
      ensures Now() == Start(t)
    {
      hide Inv;
      grid := new Grid.Window(t);
      this.L := L;
      wire := Down(0);
      new;
      grid.Open();
      StartInv(t, L);
    }

    /** A render's end: the demand engine may dial one fetch, and only while no fetch
        is open. */
    method Look(absTop: real, absBot: real, backoff: bool) returns (d: Demand)
      requires Ascending(L) && Possible(Now(), L, Event.Look(absTop, absBot, backoff))
      modifies this, grid
      ensures Now() == Step(old(Now()), grid.tune, L, Event.Look(absTop, absBot, backoff))
      ensures old(Valid()) ==> Valid()
      ensures old(SlotsValid()) ==> SlotsValid()
      ensures old(Valid() || SlotsValid()) ==>
                (d != Nothing ==> old(wire) == Idle) && (d == WantDown ==> old(Anchored(grid.View())))
    {
      hide Inv, SlotInv, Need, Anchored;
      ghost var x, e := Now(), Event.Look(absTop, absBot, backoff);
      if Inv(x, L) {
        LookKeeps(x, grid.tune, L, e);
        InvIsSlotInv(x, L);
      }
      if SlotInv(x, L) {
        SlotLookKeeps(x, grid.tune, L, e);
        SlotDemand(x, grid.tune, L, e);
      }
      d := grid.CheckNeed(absTop, absBot, backoff);
      wire := Dial(x, grid.tune, L, d).wire;
    }

    /** A page of the down wire: the next n rows of the listing. */
    method DownPage(page: seq<Row>, done: bool, safe: nat)
      requires Ascending(L) && Possible(Now(), L, DownRows(|page|, done, safe))
      requires page == PageRows(Now(), L, DownRows(|page|, done, safe))
      modifies this, grid
      ensures Now() == Step(old(Now()), grid.tune, L, DownRows(|page|, done, safe))
      ensures old(Valid() && DownFits(grid.View(), |page|, done)) ==> Valid()
      ensures old(SlotsValid() && DownFits(grid.View(), |page|, done)) ==> SlotsValid()
    {
      hide Inv, SlotInv, WindowSpec.DownPage, DownFits;
      ghost var x, e := Now(), DownRows(|page|, done, safe);
      if Inv(x, L) && DownFits(x.s, |page|, done) {
        DownPageKeeps(x, grid.tune, L, e);
      }
      if SlotInv(x, L) && DownFits(x.s, |page|, done) {
        SlotDownKeeps(x, grid.tune, L, e);
      }
      grid.OnDownPage(page, done, safe);
      wire := if grid.needDown then Down(x.wire.next + |page|) else Idle;
    }

    /** A page of the up wire, at whatever index the host names for it: its own
        index keeps the whole invariant, and rows taken in place keep the slots,
        whatever the ring holds. */
    method UpPage(page: seq<Row>, done: bool, at: nat, safe: nat)
      requires Ascending(L) && Possible(Now(), L, UpRows(|page|, done, at, safe))
      requires page == PageRows(Now(), L, UpRows(|page|, done, at, safe))
      modifies this, grid
      ensures Now() == Step(old(Now()), grid.tune, L, UpRows(|page|, done, at, safe))
      ensures old(Valid() && UpFits(Now(), |page|, at)) ==> Valid()
      ensures old(SlotsValid() && SlotFits(Now(), grid.tune, L, UpRows(|page|, done, at, safe))) ==> SlotsValid()
    {
      hide Inv, SlotInv, WindowSpec.UpPage, UpFits, SlotFits;
      ghost var x, e := Now(), UpRows(|page|, done, at, safe);
      if Inv(x, L) && UpFits(x, |page|, at) {
        UpPageKeeps(x, grid.tune, L, e);
      }
      if SlotInv(x, L) && SlotFits(x, grid.tune, L, e) {
        SlotStepKeeps(x, grid.tune, L, e);
      }
      grid.OnUpPage(page, done, at, safe);
      wire := if grid.needUp then Up(x.wire.next + |page|) else Idle;
    }

    /** Either wire failing settles its fetch; a climb keeps what it buffered. */
    method Fail(safe: nat)
      requires Ascending(L) && wire != Idle && Live(Now())
      modifies this, grid
      ensures wire == Idle
      ensures Now() == Step(old(Now()), grid.tune, L, if old(wire).Down? then DownFails else UpFails(safe))
      ensures old(Valid()) ==> Valid()
      ensures old(SlotsValid()) ==> SlotsValid()
    {
      hide WindowSpec.SettleUp, WindowSpec.SettleDown, Inv, SlotInv;
      ghost var x, e := Now(), if wire.Down? then DownFails else UpFails(safe);
      if Inv(x, L) {
        StepKeeps(x, grid.tune, L, e);
      }
      if SlotInv(x, L) {
        SlotStepKeeps(x, grid.tune, L, e);
      }
      if grid.needDown {
        grid.SettleDown(false);
      } else {
        var _ := grid.SettleUp(safe);
      }
      wire := Idle;
    }
  }
}
