# Verified model of the browser's windowed grid, differs, tree and guards

A Dafny model of the logic at the core of the S3 browser, with proofs of what it
promises. `dafny verify dfyconfig.toml` checks all of it.

The project has seven parts, one or more modules each.

- **The sliding window** (`Listing`, `WindowSpec`, `WindowSlices`, `WindowSeat`,
  `WindowLaws`, `WindowDemand`, `WindowRuns`, `WindowDown`, `WindowClimbs`,
  `WindowShows`, `WindowSlots`, `WindowScroll`, `WindowWitness`, `WindowRefresh`,
  `KeyOrder`, `Arrival`, `Grid`, `Host`, `Drawing`). The grid holds a bounded slice of
  an unbounded listing, with tombstones for rows it owes, extends it downward under an
  absolute budget, trims both ends, and refills upward from start-after checkpoints.
  `WindowSpec` gives every operation as a function on the window's state; `Grid.Window`
  is the object with its fields updated in place, each method proved against its
  function; `WindowLaws` adds the one wire that feeds the window and the invariant every
  step keeps; `WindowRuns` and `WindowDown` speak about whole runs, `WindowDemand` and
  `WindowShows` about what one look asks for and one page leaves, slot by slot;
  `WindowClimbs` and `WindowSlots` give the climb under a host that names any index for
  its pages, `WindowScroll` puts the scroller around it, `WindowRefresh` adds silent
  refreshes, and `KeyOrder` and `Arrival` say when the listing premise itself holds.
  `Host.ListingView` is the view around the grid: its methods are the host's events and
  keep that invariant. The listing is a sequence `L` that only the proofs see, strictly
  ascending by key, and "list past a key" is the filter that S3 answers. In the safety
  theorems a scroll position is any on the canvas and a trim may drop any number of
  slots (`safe`); `WindowScroll` computes both.
- **The line differs** (`Scripts`, `LineDiff`, `DiffView`). Both alignments with their
  trimming loops, flat table filled in place and greedy walk, and the collapse of
  unchanged runs.
- **The tree's flattened order** (`TreeOrder`, `TreeWalk`).
- **Places and history** (`Places`, `EntryKeys`, `NavHistory`).
- **The guarded S3 edit** (`EditGuard`), with other writers' changes at every step;
  If-Match follows section 13.1.1 of RFC 9110.
- **The stream subscription** (`StreamPages`).
- **The window group** (`WindowGroup`).

## What the proofs found

Some promises hold only under a condition; in each case the code is modelled as it is and
the exact condition is proved. The four `WindowWitness` sessions start at an opened view one
row tall; their scroll positions and trims are the ones `WindowScroll` gives, every render
takes its look, and every event but the last keeps the feeding rules.

- A down page met by a trailing tombstone band keeps every slot true if and only if it is
  empty or the rows let in cover the band (`WindowRuns.DownSlotsExact`). `appendRows`
  aligns the band to the end of the array, so a shorter page lands low
  (`WindowWitness.ShortPageMisplaces`). A covering page that leaves its fetch open leaves the
  wire at the first owed row if and only if none of it was cut off
  (`WindowRuns.DownWireExact`): `windowFull` measures an edge that band rows do not move, so
  the wire can run on past rows that were cut. Both hold on any ring
  (`WindowSlots.SlotDownExact`); together they are what the session invariant takes
  (`WindowRuns.DownPageExact`). Sessions that never climbed meet all of this by themselves
  (`WindowDown.DownRunsTakeThePrefix`).
- A down walk dialled from a window below the head without any held row would restart at the listing's
  head (`WindowRuns.DialDownExact`). It never is: no view starts past the canvas
  (`Drawing.ViewStartsInside`), so the tombstone scan that found no blank found a held row
  (`WindowLaws.DialsAnchored`).
- The comment at frontend/js/grid.js:973-976 says a head trim compensates the scroll so
  that the view does not jump. The windowed canvas spans the listing from its first row,
  trimmed or not, so the compensation moves the view up by exactly the rows cut; it keeps
  its place if and only if none is (`WindowScroll.TrimMovesView`).
- The comment at frontend/js/grid.js:784-787 calls every observed key and index a true
  binding. For the checkpoint of a back page that is so if and only if the page starts at
  the index the host names (`WindowClimbs.BackPageBindsExact`). frontend/js/main.js:1613
  names the same checkpoint for every page of a climb, which makes the second page's
  binding false (`WindowClimbs.FixedCheckpointBreaks`); frontend/js/local.js:930 names
  none, which is right only at index 0.
- The slots themselves are more forgiving. Whatever index is named, a back page's rows end
  in their own slots if and only if it takes no row, or takes them in place: the climb's
  first taking page starts at the named index, a later one follows its buffer without a
  gap and the named slot is owed (`WindowClimbs.BackPageSlotsExact`;
  `WindowClimbs.FixedCheckpointExact` for one index throughout,
  `WindowClimbs.BackPageSeamExact` for each page's own). Whether it takes a row is read off
  the slots (`WindowClimbs.TakesExact`). Sessions that keep this rule show no wrong row,
  whatever their ring holds (`WindowSlots.SlotsSafe`). Both wirings can break it: the main
  view's one index for all pages with an empty buffer
  (`WindowWitness.FixedCheckpointMisplaces`) and behind a buffered row
  (`WindowWitness.SeamMisplaces`), the side pane's missing one on a first page
  (`WindowWitness.NoIndexMisplaces`).
- frontend/js/main.js:1504-1506 says every exit must settle its fetch, or the dangling fetch
  starves later demands. A silent refresh empties the stream slot before it looks at the
  model (frontend/js/main.js:1646-1654) and settles nothing: every armed fetch keeps a live
  wire if and only if each refresh finds the slot idle (`WindowRefresh.RunLiveExact`). A
  fetch cut in an open walk stays cut, whatever is looked at or refreshed, until a navigation
  opens a new session (`WindowRefresh.OpenWalkStarves`), the first walk included
  (`WindowRefresh.FirstWalkStarves`).
- The window's laws take the wire to follow the listing. Folder views hand over each page's
  common prefixes first, so it does if and only if the prefixes lead every page
  (`Arrival.WireExact`). A window cut inside a page goes on without loss if and only if
  every row taken sorts below every row left (`Arrival.CutExact`, read off the page by
  `Arrival.CleanCutExact`); otherwise the rows below are never listed
  (`Arrival.CutLosesFile`).
- `lastKey` compares code units, the provider code points. Both pick one key if and only if
  no held key crosses the greatest, a surrogate pair against a character from U+E000 on
  (`KeyOrder.LastKeysAgreeExact`); a window that holds a row asks for its last one again if
  and only if one does (`KeyOrder.RepeatExact`), in particular where a listing's last two
  keys cross (`KeyOrder.CrossedKeysRepeat`, `KeyOrder.CrossedKeysExist`).
- The two ancestor tests agree except beyond 128 hops and on whether the buckets view
  lies above itself, where the pane answers yes (`Places.AncestorTestsAgree`).
- The pane's entry keys join names with `|`. Places under two sources or buckets of one
  kind are told apart if and only if neither name is the other one's key text nor that text
  followed by `|` and something a path can open with (`EntryKeys.RootsToldExact`). Names
  without `|` always are (`EntryKeys.BarlessTold`), and so are most with one
  (`EntryKeys.BarredSources` shows both sides).
- A page that arrives between a stream's token and its flush overtakes the buffered
  ones. For any handler the order of arrival survives if and only if both orders are one
  or the handler quits while they agree; for distinct pages, if and only if one side is
  empty (`StreamPages.MidArrivalsReorder`).

## Model

| member | source | states |
|---|---|---|
| Listing.ListAfterIsSuffix | frontend/js/grid.js:784-787 | on an ascending listing, listing past any key answers a suffix |
| Listing.KeyBeforeLists | frontend/js/grid.js:784-787 | a row's key, taken with the index behind it, lists exactly the rows from that index |
| Listing.BindingExact | frontend/js/grid.js:784-787 | that key is bound to no other index |
| WindowSlices.MirrorCut | frontend/js/grid.js:998-1009 | dropping a cut's rows from the display rows leaves exactly the rows still held, at either end |
| WindowSlices.ResumeExact | frontend/js/grid.js:1154-1158 | listing past lastKey starts at the first owed slot iff some row is held or the window stands at index 0 |
| WindowSlices.CellsAligned | frontend/js/grid.js:686-695 | rows from the first owed slot that cover the band keep every slot showing its own row |
| WindowSlices.CutBinds | frontend/js/grid.js:992-997 | the boundary checkpoint of a cut is a true binding |
| WindowSlices.PushTopKeepsRing | frontend/js/grid.js:793-802 | a push keeps the ring within 192 entries, its index-0 entry first, every entry true |
| WindowSlices.PushTopSeats | frontend/js/grid.js:793-802 | the pushed checkpoint survives its own thinning |
| WindowSlices.PushTopKeepsAll | frontend/js/grid.js:793-797 | below the bound a push loses no stored checkpoint but a youngest one at the pushed index |
| WindowSlices.PushTopAnswers | frontend/js/grid.js:793-811 | there it changes the answer to a query iff the new checkpoint is at or below the query and no stored one is tighter |
| WindowSlices.PushTopKeepsSpread | frontend/js/grid.js:788-802 | thinning a full ring drops a quarter, spares the younger half and never drops two neighbours |
| WindowSlices.TopBelowTightest | frontend/js/grid.js:806-811 | the answer is a stored true binding at or below the query, and no stored one is tighter |
| WindowLaws.AppendAligned | frontend/js/grid.js:686-706 | an aligned append keeps slots, display rows and ring, closes the band and moves the edge to the last row |
| WindowLaws.TrimsBound | frontend/js/grid.js:977-991 | a trim leaves the ceiling's worth, or all but what the view lets go where that is less |
| WindowLaws.TrimTopKeeps | frontend/js/grid.js:977-1009 | trimming the head keeps slots, display rows and ring, and leaves the absolute edge |
| WindowLaws.PushEdgeKeeps | frontend/js/grid.js:826-826 | the checkpoint of lastKey at the new edge is true |
| WindowLaws.StreamAligned | frontend/js/grid.js:818-830 | an accepted page moves the absolute edge by what the budget lets in, trims included |
| WindowLaws.DownPageLeaves | frontend/js/local.js:969-983 | after a page the edge stands behind the last row taken; the fetch stays open iff neither done nor full; a done page ends on the listing's length |
| WindowLaws.DownPageKeeps | frontend/js/main.js:1552-1571 | a fitting down page keeps the session invariant, the wire going on at the first owed row |
| WindowLaws.DialsAnchored | frontend/js/grid.js:1072-1097 | a view on the canvas that raises a down demand finds the window anchored: the tombstone scan guards the dial |
| WindowLaws.LookKeeps | frontend/js/grid.js:1056-1097 | arming and dialling a fetch keeps the invariant, wherever on the canvas the view stands |
| WindowLaws.WalkTakesOwed | frontend/js/grid.js:902-915 | a back page's taken rows are one run of owed slots inside the window, everything before them held |
| WindowLaws.WalkGoesOn | frontend/js/grid.js:902-915 | the walk stops short only on a full buffer, on held ground or at the edge |
| WindowLaws.AppendBackBuffer | frontend/js/grid.js:897-919 | pages at their own index build one contiguous run of true, owed rows |
| WindowLaws.AppendBackSound | frontend/js/grid.js:917-917 | the examined page's boundary checkpoint is true |
| WindowLaws.SeatAt | frontend/js/grid.js:943-957 | prepend, crossing overlap or splice: the fill's slots show its rows, every other slot what it showed, the bottom edge unmoved |
| WindowSeat.SeatPlaces | frontend/js/grid.js:943-957 | for any buffer that starts inside or above the window: its slots show its rows in order, every other slot what it showed |
| WindowSeat.SeatSlotsExact | frontend/js/grid.js:943-957 | the seated slots are true iff the buffer is the listing's own run from where it starts |
| WindowLaws.SettleUpKeeps | frontend/js/grid.js:936-971 | a settled climb, tail trim and checkpoint included, keeps the session invariant |
| WindowShows.SettleUpShows | frontend/js/grid.js:936-971 | a settled climb slot by slot: the buffer's rows in their slots, every other slot as it was, up to the tail trim |
| WindowShows.SettleUpSeats | frontend/js/grid.js:961-961 | it seats the index behind its last row |
| WindowShows.BackPageSeats | frontend/js/grid.js:917-917 | every examined page seats its end, taken or passed over |
| WindowLaws.UpPageKeeps | frontend/js/main.js:1605-1622 | a fitting up page keeps the session invariant |
| WindowLaws.StepKeeps | frontend/js/grid.js:720-971 | every step of a session - looks, pages, errors, settles, trims - keeps the invariant |
| WindowRuns.RunKeeps | frontend/js/grid.js:720-1111 | so does every run |
| WindowRuns.StartInv | frontend/js/grid.js:756-773 | an opened session satisfies it |
| WindowRuns.SessionSafe | frontend/js/grid.js:686-1044 | in every reachable state each slot shows its own listing row or a blank, the edge lies inside the listing, the ring is bounded and true |
| WindowRuns.DemandSound | frontend/js/grid.js:1056-1097 | demands fire only with no fetch in flight, climbs ask from a true checkpoint at or above the view, down demands from an anchored window, and past done one means the edge is short of the listing |
| WindowDemand.NeedExact | frontend/js/grid.js:1056-1097 | at rest the engine asks upward iff a slot from the view's reach to its bottom is owed, downward iff none is, the edge is near and not known to be the end; otherwise for nothing |
| WindowRuns.DemandExact | frontend/js/grid.js:1056-1097 | in a session the same, idle meaning no open fetch, the known end the listing's length, and a climb from the tightest stored checkpoint at or above the view |
| WindowRuns.QuietMeansShown | frontend/js/grid.js:1062-1096 | an idle engine that asks for nothing has every slot in view held, and the edge is the known end or out of reach |
| WindowRuns.DownPageLast | frontend/js/grid.js:818-830 | whatever the page, its last row taken sits in the window's last slot |
| WindowRuns.DownSlotsExact | frontend/js/grid.js:686-696 | after a down page every slot shows its own row iff the page is empty or what is let in covers the band |
| WindowRuns.DownWireExact | frontend/js/local.js:966-983 | a wire a down page leaves open goes on at the first owed row iff the page was empty or wholly let in, or just as long as a band it did not cover |
| WindowRuns.DownPageExact | frontend/js/local.js:958-983 | a down page keeps the whole session invariant, wire included, iff it fits the band and the budget |
| WindowShows.DownPageShows | frontend/js/grid.js:686-695 | a fitting page slot by slot: its rows in the first owed slots, every slot above as it was save those trimmed, the edge behind the last row let in |
| WindowShows.LandSeats | frontend/js/grid.js:818-830 | an accepted page seats the checkpoint of its edge, a head trim that of its boundary, and both stand |
| WindowRuns.DialDownExact | frontend/js/local.js:960-965 | a dialled down fetch is sound iff the window is anchored |
| WindowRuns.SettleDownMeans | frontend/js/grid.js:843-859 | a look asks below iff nothing is armed or owed in view, the edge is near, and either the last settle was not done and none was before, or a trim holds the edge above the known end |
| WindowClimbs.BackPageBindsExact | frontend/js/grid.js:917-917 | the seated checkpoint is true iff the page starts at the named index |
| WindowClimbs.FixedCheckpointBreaks | frontend/js/main.js:1598-1614 | naming one checkpoint for all pages makes the second page's binding false |
| WindowClimbs.TakesExact | frontend/js/grid.js:902-915 | a back page puts a row in the buffer iff there is room and its first owed slot lies inside the window and within the pass-over budget |
| WindowShows.WalkExact | frontend/js/grid.js:902-915 | the acceptance loop is the one walk that passes held slots within the budget, takes the owed run behind them up to a window's worth, and is hit only by held ground, the spent budget or the edge |
| WindowClimbs.ClimbCloses | frontend/js/grid.js:897-923 | a back page closes its climb iff it is the last page, one was before in this session, the walk was hit or the buffer is a window's worth |
| WindowClimbs.BackPageRunExact | frontend/js/grid.js:897-919 | whatever index is named, the buffer stays the listing's own run iff the page takes no row or takes them in place |
| WindowClimbs.BackPageSlotsExact | frontend/js/grid.js:897-957 | whatever index is named, the slots settle true iff the page takes no row or takes them in place |
| WindowClimbs.BackPageSeamExact | frontend/js/grid.js:897-957 | with each page at its own index, iff no row joins a buffer across a gap or held ground |
| WindowClimbs.FixedCheckpointExact | frontend/js/main.js:1598-1614 | with one index for all, a page past the first settles true iff it takes nothing, or follows its buffer and the checkpoint's slot is owed |
| WindowSlots.FitsIsSlotFits | frontend/js/main.js:1598-1622 | the slots' feeding rule asks no more than each page's own index gives |
| WindowSlots.SlotDownExact | frontend/js/grid.js:686-696 | on any ring a down page keeps the slots iff it covers the band, and the wire iff none of it is cut off |
| WindowSlots.SlotDemand | frontend/js/grid.js:1056-1097 | on any ring a demand fires only with no fetch in flight, a down demand only from an anchored window |
| WindowSlots.SlotUpKeeps | frontend/js/main.js:1605-1622 | a back page at any named index keeps the slots if its rows are taken in place, whatever the ring holds |
| WindowSlots.SlotStepKeeps | frontend/js/grid.js:686-971 | so does every step that keeps the slots' feeding rule |
| WindowSlots.SlotsSafe | frontend/js/grid.js:686-1044 | in every state such a session reaches each slot shows its own row or a blank, whatever the ring holds and whatever index the host names |
| WindowScroll.StaysOnCanvas | frontend/js/grid.js:977-1034 | trims, compensated scroll included, never leave the view off the canvas |
| WindowScroll.ScreensRun | frontend/js/grid.js:977-1097 | a session whose trims and looks follow its scroll position is a run of the free one, its view always on the canvas |
| WindowScroll.TrimMovesView | frontend/js/grid.js:973-1010 | a head trim moves the view up by exactly the rows cut, so it keeps its place iff none is |
| WindowWitness.ShortPageMisplaces | frontend/js/grid.js:692-696 | a scrolled session: one row against a band of two, and slot 4 shows row 3 |
| WindowWitness.FixedCheckpointMisplaces | frontend/js/main.js:1598-1614 | a scrolled session: two pages named at one checkpoint, the first wholly held, and slot 2 shows row 4 |
| WindowWitness.SeamMisplaces | frontend/js/main.js:1598-1614 | a scrolled session: the second page at the one index opens on held ground behind a buffered row, and slot 3 shows row 5 |
| WindowWitness.NoIndexMisplaces | frontend/js/local.js:919-935 | a scrolled session: a climb from index 2 named at none, and slot 2 shows row 4 |
| WindowRefresh.FetchKeepsLive | frontend/js/main.js:1502-1506 | the window's own events keep every armed fetch its wire and every wire its fetch |
| WindowRefresh.StepLiveExact | frontend/js/main.js:1645-1654 | one event keeps that iff it is not a silent refresh over an open fetch |
| WindowRefresh.SwapExact | frontend/js/main.js:1651-1725 | a silent walk starts iff the walk is settled or a folded listing within one first window, and its swap shows exactly the rows it brought |
| WindowRefresh.TickStarvesExact | frontend/js/main.js:1645-1654 | a silent refresh leaves an armed fetch without its wire iff it cut one |
| WindowRefresh.RunLiveExact | frontend/js/main.js:1645-1725 | over any run it holds at every moment iff every refresh found the slot idle |
| WindowRefresh.StarvedStands | frontend/js/grid.js:1056-1058 | armed without a wire, a session stands still under every event but a silent swap |
| WindowRefresh.OpenWalkStarves | frontend/js/main.js:1651-1654 | a fetch cut in an open walk leaves the session as it stands after any run |
| WindowRefresh.FirstWalkStarves | frontend/js/main.js:1645-1654 | a refresh during the first walk leaves the view empty after any run |
| KeyOrder.JsLessExact | frontend/js/grid.js:1154-1158 | the two string orders differ exactly where the strings cross |
| KeyOrder.UnitExact | frontend/js/grid.js:1154-1158 | a character is one code unit, or the surrogate pair that gives it back |
| KeyOrder.LastKeysAgreeExact | frontend/js/grid.js:1150-1158 | lastKey is the provider's last key iff no held key crosses the greatest |
| KeyOrder.RepeatExact | frontend/js/grid.js:1150-1158 | a window that holds a row lists its last one again iff a held key crosses that row's |
| KeyOrder.CrossedKeysRepeat | frontend/js/grid.js:1150-1158 | where a listing's last two keys cross, a window holding it whole lists the last row again |
| KeyOrder.CrossedKeysExist | frontend/js/grid.js:1150-1158 | two such keys, one of them a surrogate pair |
| KeyOrder.JsResumeExact | frontend/js/grid.js:1154-1158 | by JavaScript's order too, resuming past lastKey starts at the first owed slot iff the window is anchored and no held key crosses the greatest |
| Arrival.EmitPage | pkg/core/listing/listing.go:77-107 | the two loops hand over a page's common prefixes, then its contents, folder markers among them |
| Arrival.WireExact | pkg/core/listing/listing.go:65-110 | the wire is the listing iff the common prefixes lead every page |
| Arrival.CutExact | frontend/js/grid.js:1150-1158 | after a cut inside a page the next window lists exactly the left rows past every taken one, all of them iff taken sorts below left |
| Arrival.CleanCutExact | pkg/core/listing/listing.go:77-107 | which is so iff no prefix was taken, no content row is left, or the last prefix taken sorts below the first content row left |
| Arrival.CutLosesFile | pkg/core/listing/listing.go:77-107 | a page of a file and a folder behind it, cut after one row, never lists the file |
| WindowDown.DownStepWhole | frontend/js/grid.js:774-830 | without tombstones every page fits, the edge moves by exactly the rows taken, and a window ends on its target or, done, on the listing's end |
| WindowDown.DownRunsTakeThePrefix | frontend/js/grid.js:774-830 | over every down-only session the rows taken concatenate to the listing's head up to the edge |
| WindowDown.FetchBringsWindow | frontend/js/grid.js:1103-1111 | whatever the page sizes, one demand moves the edge by exactly one window, or to the listing's end |
| WindowDown.OpeningBringsFirst | frontend/js/grid.js:756-773 | the opening walk brings exactly the first window, or the whole listing |
| Grid.Window.Open | frontend/js/main.js:1655-1659 | setRows and beginStream together give the session's start state |
| Grid.Window.PushTop | frontend/js/grid.js:793-802 | the splicing loop computes the specified ring |
| Grid.Window.FindTopBelow | frontend/js/grid.js:806-811 | the scan computes the specified best checkpoint |
| Grid.Window.FindLastKey | frontend/js/grid.js:1154-1158 | the scan computes the highest held key |
| Grid.Window.AppendRows | frontend/js/grid.js:686-706 | band counting and the two splices compute the specified slice and rows, nothing else changes |
| Grid.Window.LastRealBefore | frontend/js/grid.js:995-996 | finds the last real row of a cut |
| Grid.Window.TrimTop | frontend/js/grid.js:977-1009 | the specified head trim, nothing else changes |
| Grid.Window.TrimBottom | frontend/js/grid.js:1023-1034 | only slots past the view leave and only down to the ceiling; every slot that stays shows what it showed |
| WindowLaws.TrimBottomKeeps | frontend/js/grid.js:1023-1034 | trimming the tail keeps slots, display rows and ring |
| Grid.Window.AppendStreamRows | frontend/js/grid.js:818-830 | the specified append, returning exactly the accepted head of the page |
| Grid.Window.WalkBackPage | frontend/js/grid.js:902-915 | the acceptance loop computes the specified walk |
| Grid.Window.AppendBackRows | frontend/js/grid.js:897-919 | the specified buffer, flags and checkpoint |
| Grid.Window.SeatBuffer | frontend/js/grid.js:943-957 | the buffer's slots show its rows, every other slot what it showed, and the edge moves only if the fill runs past it |
| Grid.Window.SettleUp | frontend/js/grid.js:936-971 | the specified settle, returning the fill's size |
| Grid.Window.CheckNeed | frontend/js/grid.js:1056-1097 | the tombstone scan and the edge rule ask upward iff the view is owed a slot, downward iff it is not and the edge is near and open, and arm that fetch alone |
| Grid.Window.OnDownPage | frontend/js/local.js:966-984 | the host's page handler takes the specified step |
| Grid.Window.OnUpPage | frontend/js/main.js:1605-1618 | the host's back-page handler takes the specified step |
| Host.ListingView.constructor | frontend/js/main.js:1655-1659 | a navigation opens a session that satisfies the invariant |
| Host.ListingView.Look | frontend/js/grid.js:1056-1097 | arming and dialling keeps the invariant, or on any ring the slots; a demand is raised only while no fetch is open, a down one only from an anchored window |
| Host.ListingView.DownPage | frontend/js/local.js:966-984 | a down page takes its step; a fitting one keeps the invariant, or on any ring the slots |
| Host.ListingView.UpPage | frontend/js/main.js:1605-1618 | a back page takes its step at any named index: its own keeps the invariant, rows taken in place keep the slots |
| Host.ListingView.Fail | frontend/js/main.js:1578-1631 | a failed wire settles its fetch and keeps the invariant, or on any ring the slots, a climb keeping what it buffered |
| Drawing.SlotsWithinCap | frontend/js/grid.js:1132-1134 | however large the extent, the slots stay within the cap |
| Drawing.StrideLeast | frontend/js/grid.js:1132-1134 | the stride is the least that fits the cap, 1 iff the extent does |
| Drawing.SlotsCoverExtent | frontend/js/grid.js:1349-1349 | every slot spells an index inside the extent and every listing index has its slot |
| Drawing.TouchedIsDrawn | frontend/js/grid.js:1356-1357 | a slot the viewport touches lies between first and last |
| Drawing.DrawnExact | frontend/js/grid.js:1356-1357 | the drawn slots are just those within eight rows and the part of a row of the view |
| Drawing.ViewStartsInside | frontend/js/grid.js:1346-1352 | the clamped scroll keeps the view's top edge inside the extent at every stride |
| Drawing.Canvas.CalcScale | frontend/js/grid.js:1132-1138 | the least stride that fits, 1 within the cap; a stride change keeps the viewport's listing position |
| Drawing.Canvas.DrawPool | frontend/js/grid.js:1374-1396 | the pool grows to the need and each pooled row draws its slot or parks |
| Drawing.Canvas.Render | frontend/js/grid.js:1346-1396 | stride, 1 within the cap, range and pool come out as drawn |
| Drawing.ViewportRefinesListing | frontend/js/grid.js:1346-1396 | each touched slot is drawn by exactly one pooled row, at its offset, showing what the window holds at its index: its own listing row or a blank |
| Drawing.WithinCapDrawsEachRow | frontend/js/grid.js:1346-1396 | within the cap slot i is listing row i, so every row in view is drawn |
| Scripts.NoScriptKeepsMore | frontend/js/dialogs.js:4300-4320 | no script between two texts keeps more lines than their LCS |
| Scripts.LcsCommonHead | frontend/js/dialogs.js:4292-4293 | a common head adds its length to the LCS |
| Scripts.LcsCommonTail | frontend/js/dialogs.js:4294-4295 | so does a common tail |
| Scripts.WalkIsScript | frontend/js/dialogs.js:4312-4319 | the greedy walk reconstructs both middles and keeps exactly their LCS |
| Scripts.WalkIsFirst | frontend/js/dialogs.js:4312-4319 | of all scripts that keep the most the walk keeps first, then deletes first |
| Scripts.DisjointWalkIsBlock | frontend/js/dialogs.js:5159-5168 | middles without a common line walk to the block |
| Scripts.Trimmed | frontend/js/dialogs.js:4292-4297 | both texts are the shared head, their middle and the shared tail |
| Scripts.TrimMaximal | frontend/js/dialogs.js:4292-4297 | two middles that both hold lines differ in the first and in the last one |
| Scripts.OverCapBlock | frontend/js/dialogs.js:4298-4301 | over the cap only head and tail are kept, the whole old middle leaving before the new one arrives |
| Scripts.AlignReconstructs | frontend/js/dialogs.js:4298-4325 | in every branch dropping insertions gives the old lines, dropping deletions the new ones |
| Scripts.TrimKeepsLcs | frontend/js/dialogs.js:4292-4297 | the whole texts' LCS is head, middle's LCS and tail |
| Scripts.AlignOptimal | frontend/js/dialogs.js:5130-5164 | under the cap the script keeps exactly the whole texts' LCS and no script deletes and inserts less |
| Scripts.CapsAgreeExact | frontend/js/dialogs.js:5125-5145 | two caps align alike iff the middle falls on one side of both or shares no line |
| LineDiff.LinesJoin | frontend/js/dialogs.js:4290-4291 | joining a text's lines gives the text back |
| LineDiff.LinesExact | frontend/js/dialogs.js:4290-4291 | a text's lines are the only sequence without breaks that joins back to it |
| LineDiff.LinesUnbroken | frontend/js/dialogs.js:4290-4291 | no line holds a break, and there is one line more than breaks |
| LineDiff.DropCRSplits | frontend/js/dialogs.js:4290-4291 | every CRLF between two texts becomes one break |
| LineDiff.DropCRKeeps | frontend/js/dialogs.js:4290-4291 | and a text without any stands as it is |
| LineDiff.NumbersCount | frontend/js/dialogs.js:4300-4325 | a row's number in a text is one more than that text's lines in the rows before it |
| LineDiff.NumbersPointOld | frontend/js/dialogs.js:4300-4325 | a row's old-text number points at its line |
| LineDiff.NumbersPointNew | frontend/js/dialogs.js:4300-4325 | a row's new-text number points at its line |
| LineDiff.CellInside | frontend/js/dialogs.js:4303-4310 | a cell's flat index lies inside the table |
| LineDiff.CellDistinct | frontend/js/dialogs.js:4303-4310 | two cells never share a flat index |
| LineDiff.TableFits | frontend/js/dialogs.js:4304-4304 | every entry of a table under the cap fits its 32-bit cell |
| LineDiff.FillTable | frontend/js/dialogs.js:4303-4311 | every cell of the flat table holds the LCS length of its two suffixes |
| LineDiff.Trim | frontend/js/dialogs.js:5137-5140 | the two loops find the maximal common head and tail |
| LineDiff.AlignMiddle | frontend/js/dialogs.js:5146-5164 | table and walk compute the specified alignment |
| LineDiff.Block | frontend/js/dialogs.js:5165-5170 | every old line leaves, then every new line arrives |
| LineDiff.UnifiedLineDiff | frontend/js/dialogs.js:5134-5173 | the function computes the specified alignment of the two texts |
| LineDiff.RenderMiddle | frontend/js/dialogs.js:4302-4320 | the second table and walk compute the same alignment, numbered |
| LineDiff.RenderBlock | frontend/js/dialogs.js:4299-4301 | the over-cap block, numbered |
| LineDiff.RenderDiff | frontend/js/dialogs.js:4289-4325 | the row list is the numbered alignment of the CRLF-normalized texts |
| LineDiff.DiffsReconstruct | frontend/js/dialogs.js:5134-5173 | the kept and deleted lines join to the old text, the kept and inserted ones to the new, under any cap |
| LineDiff.RenderNumbersPoint | frontend/js/dialogs.js:4300-4325 | every row is numbered for exactly the texts it stands in, each number pointing at exactly its line |
| LineDiff.DiffersAgreeExact | frontend/js/dialogs.js:4289-4325 | without CRLF both differs give the same rows iff the middle is within the smaller cap, above the larger, or shares no line |
| DiffView.MarkKeep | frontend/js/dialogs.js:4327-4330 | a row is kept iff it lies within three positions of a change |
| DiffView.HiddenExact | frontend/js/dialogs.js:4326-4330 | a row is hidden iff it and the three on either side are unchanged |
| DiffView.Collapse | frontend/js/dialogs.js:4331-4336 | the flag loop shows kept rows and one marker per maximal hidden run |
| DiffView.Draw | frontend/js/dialogs.js:4337-4350 | at most 4000 shown rows are drawn, the rest counted |
| DiffView.CollapseRestores | frontend/js/dialogs.js:4331-4336 | without markers the shown rows are the kept ones in order; each marker stands for exactly one run, and putting the runs back restores the list |
| DiffView.NoGapsTouch | frontend/js/dialogs.js:4331-4336 | no two markers touch |
| DiffView.NoChangeHidden | frontend/js/dialogs.js:4326-4330 | no hidden run is empty or holds a change |
| TreeOrder.VisibleExact | frontend/js/tree.js:336-347 | a node is visible iff it or a loaded descendant matches |
| TreeOrder.NothingToPick | frontend/js/tree.js:727-732 | a closed or matchless subtree contributes nothing, so skipping it drops no match |
| TreeOrder.FilteredOrderExact | frontend/js/tree.js:726-735 | the filtered order is the duplicate-free preorder of matching-or-carrying nodes with no folded strict ancestor |
| TreeOrder.PlainOrderExact | frontend/js/tree.js:726-753 | the unfiltered order is the duplicate-free preorder of nodes whose strict ancestors are expanded |
| TreeWalk.ClimbFindsParent | frontend/js/tree.js:643-649 | the nearest preceding row with a smaller level is the row's parent |
| TreeWalk.NextIsFirstChild | frontend/js/tree.js:634-637 | the next row is deeper iff the row is open with a shown child, and is the first of those |
| TreeWalk.TreeView.Visit | frontend/js/tree.js:338-343 | the accumulating recursion answers the verdict and adds exactly the visible ids |
| TreeWalk.TreeView.Render | frontend/js/tree.js:726-764 | the order is rebuilt, whole pages seated up to the one that holds the current row, or one |
| TreeWalk.TreeView.Ensure | frontend/js/tree.js:780-787 | the seat grows append-only to the end of the page that holds the last asked row, and not at all where it holds it |
| TreeWalk.TreeView.ArrowLeft | frontend/js/tree.js:641-650 | folds an open row and no other, else seats the real parent, and keeps a top row |
| TreeWalk.TreeView.ArrowRightInto | frontend/js/tree.js:633-638 | seats the first shown child, growing the seat to it, and stays without one |
| TreeWalk.TreeView.ArrowRightOpen | frontend/js/tree.js:227-241 | a closed row and no other opens, its children loaded first where they were not; a failed load folds it again, save under a filter |
| TreeWalk.GrowKeepsLevels | frontend/js/tree.js:357-375 | children built one level below their node keep every level one below its parent's |
| Places.ParentShortens | frontend/js/state.js:89-104 | parentOf strictly shortens the path, whatever the spelling |
| Places.NormExact | frontend/js/local.js:74-76 | a normalized path is the path less all slashes at its ends and nothing else |
| Places.IsAncestorLoc | frontend/js/state.js:131-139 | the loop decides whether a place is met within 128 parents |
| Places.ParentOfPlace | frontend/js/state.js:89-104 | parentOf climbs exactly one segment for every spelling, an in-bucket root to the buckets view |
| Places.SameLocExact | frontend/js/state.js:110-125 | sameLoc compares places, not spellings |
| Places.NavAncestorExact | frontend/js/state.js:131-139 | the climb means "proper segment prefix in the same source and bucket, at most 128 hops" |
| Places.JoinPrefix | frontend/js/local.js:96-98 | the string prefix test on joined segments is the proper-prefix test on segments |
| Places.PaneAncestorExact | frontend/js/local.js:89-99 | the pane's test means the same without the bound, save the buckets view above itself |
| Places.AncestorTestsAgree | frontend/js/local.js:86-99 | the two tests agree iff neither exception applies |
| EntryKeys.CleanSplits | frontend/js/local.js:74-76 | a path without end or doubled slashes is the join of its segments |
| EntryKeys.MeetExact | frontend/js/local.js:78-82 | two keys meet iff name and path are equal, or one name is the other, a bar and the rest the other path opens with |
| EntryKeys.SharedKeyClashes | frontend/js/local.js:78-84 | two places that share a key without being one sit under clashing names |
| EntryKeys.RootsToldExact | frontend/js/local.js:78-84 | every two places under two names are told apart, however spelled, iff the names do not clash |
| EntryKeys.BarlessTold | frontend/js/local.js:78-84 | names without the separator never clash |
| EntryKeys.BarredSources | frontend/js/local.js:78-84 | some names with a bar are told apart, others share a key |
| NavHistory.Nav.GoTo | frontend/js/state.js:15-30 | going anywhere new, Back leads to the place left with the old stack, a climb keeps it ahead as well, any other move leaves Forward dead; re-listing moves no stack |
| NavHistory.Nav.GoBack | frontend/js/state.js:32-39 | answers the place last left, and Forward then restores the whole history; null and untouched without one |
| NavHistory.Nav.GoForward | frontend/js/state.js:41-48 | answers the place last gone back from, and Back then restores the whole history; null and untouched without one |
| NavHistory.BackForwardRestores | frontend/js/state.js:32-48 | any number of steps back and as many forward restore the history |
| NavHistory.NavigationLaw | frontend/js/state.js:15-27 | a new place leaves the old one step back, a climb also one step forward before what was there, any other move cuts Forward, re-listing moves nothing |
| EditGuard.ObjectStore.PutIfMatch | internal/cli/edit_cmd.go:206-220 | the store's atomic verdict: written iff the tag still matches and the request took effect |
| EditGuard.EditS3 | internal/cli/edit_cmd.go:165-228 | the exit, the staging copy left behind and the object's history are the specified ones in every interleaving |
| EditGuard.ExitsExact | internal/cli/edit_cmd.go:165-228 | each exit has its own input and no other: every failing step, an untouched copy, a lost wire, a moved object, a push that took |
| EditGuard.TrimQuotesExact | internal/cli/edit_cmd.go:176-176 | the tag compared is the tag less all quotes at its ends, and nothing else |
| EditGuard.NoLostUpdate | internal/cli/edit_cmd.go:206-220 | guarded, a push that takes effect replaces exactly the version HEAD saw, made from its body; a moved object is refused unwritten |
| EditGuard.NoEditLost | internal/cli/edit_cmd.go:181-220 | what the user saved, made from the text pulled, is what the object then holds or what the staging copy keeps; a copy never saved is removed and the object untouched |
| EditGuard.UnguardedOverwrites | internal/cli/edit_cmd.go:206-213 | without the guard some interleaving overwrites a version HEAD never saw and reports success |
| StreamPages.EarlyBuffers | frontend/js/api.js:59-60 | before the token every page is kept in order and none delivered, up to a detach |
| StreamPages.LiveDelivers | frontend/js/api.js:61-61 | from then on own pages are delivered as they come, up to the detach |
| StreamPages.Subscription.FlushEarly | frontend/js/api.js:67-67 | replays the buffer in order until the handler detaches |
| StreamPages.DeliversExactly | frontend/js/api.js:43-69 | whatever arrives and whenever anyone detaches: own pages once each up to the quit, those between token and flush first; a detach before the flush loses the buffered ones |
| StreamPages.DeliversOwnInOrder | frontend/js/api.js:43-69 | with none between token and flush, in arrival order |
| StreamPages.RejectedDeliversNothing | frontend/js/api.js:66-66 | a start that fails delivers nothing, whatever came before and comes after |
| StreamPages.MidArrivalsReorder | frontend/js/api.js:59-67 | for any handler the order of arrival survives iff both orders are one or it quits while they agree; for distinct pages iff one side is empty |
| WindowGroup.OrderGroup | gui.go:752-786 | the two passes over the remaining map compute the merged order |
| WindowGroup.MergePermutes | gui.go:748-751 | the order is a permutation of the live windows, the focused one on top |
| WindowGroup.MergeOrders | gui.go:748-786 | the focused window rises above all, remembered ones keep their order, first-seen ones join below in the order they were created |
| WindowGroup.RecentFocusOnTop | gui.go:697-707 | over any run a window focused at some event and live since stands above every window not focused since |
| WindowGroup.Group.RaiseWindowGroup | gui.go:716-746 | raising bottom-first leaves the OS stack as the merged order over everything else, unchanged under a dialog or a single window |

## Left out

- Display space: filters, sorts and their coalesced applies; the window is modelled in native order without a filter.
- The host's mirror (on.trim, on.trimEnd counts), and selection and focus pruning inside the trims.
- WindowScroll.ScreensRun: follows the scroll within the cap, at stride 1, and on the slots' own canvas without the parent and liveness rows; the session theorems themselves allow every trim count and every view that starts on the canvas.
- A view too short for its parent and liveness rows and one row more: Drawing.ViewStartsInside asks for that height.
- The five-second backoff clock: a boolean input of CheckNeed.
- removeRows during an open session, and setRows with rows: only the empty setRows that opens a walk is modelled.
- The ghost rows a silent refresh carries over, and the display order of what it swaps in; its cut of the stream slot and its outcomes are modelled.
- What a provider answers to a start-after that is a folder's own key: strictly past it, as for any key.
- The listing order behind a climb from the middle of a folder view whose pages do not lead with folders: pages start elsewhere then, and `Arrival` does not follow them.
- WindowLaws.UpPageKeeps: asks each page for its own index, which frontend/js/main.js:1613 does not give past the first; WindowClimbs.BackPageSlotsExact and WindowSlots.SlotUpKeeps say what holds for any index.
- WindowRuns.SessionSafe: holds for runs that keep the feeding rules of WindowLaws.Fits; WindowSlots.SlotsSafe asks less and promises the slots without the ring, and the exact lemmas of WindowRuns and WindowClimbs say what each rule is worth.
- WindowClimbs.BackPageSlotsExact: speaks of the slots before the settle's tail trim, which can cut a wrong row away again.
- Liveness of a climb: that repeated climbs finally fill a gap is not claimed.
- Drawing outside windowed mode, and how a drawn row renders its cells.
- Colours and DOM of the diff rows, the ETag shortcut before renderDiff, and the 512 KB text cap.
- How the tree lists children, source sorting, type-ahead, Home, End, Up and Down.
- TreeWalk.TreeView.ArrowRightOpen: the load's outcome is an input, and nothing happens between the key and the answer.
- Native local paths in ancestor tests and entry keys, and paths with empty segments or more than one leading slash (Places.NormExact covers how those normalize).
- SidePane.go: its stacks follow the law NavHistory proves, but its current entry lands asynchronously.
- editRemote (check and write are not atomic) and editLocal.
- EditGuard.NoLostUpdate: assumes entity tags tell versions apart, as the source does.
- EditGuard.EditS3: the bodies are strings and the editor a function of the pulled text; same-size same-millisecond saves are the input `touched`.
- The row of a folder view's own prefix, which WalkDir skips; the listing is what remains.
- Stream errors after the token and the token type itself: tokens are integers.
- Window visibility and native handles: the live list of RaiseWindowGroup is an input.
