# A model of headless-minecraft, with proofs

headless-minecraft is a client library that keeps an observed copy of a Minecraft server's world, predicts the
effect of what it sends, and takes predictions back when the server disagrees. This project models the parts of
it whose promises span many calls, and proves those promises, or exactly when they hold, for every input, every run
and every interleaving of the steps it models.

* **Predicted clicks** (`Containers`, `ContainerStore`, `ClickRuns`, `ServerRuns`, `ClickPlans`, `Presses`,
  `UnsentClicks`, `WireOrder`, `LostUpdates`, `FullMenus`). The store of open menus with its undo log of unanswered
  clicks. `ClickLog` says what each mutator means on values; the classes of `ContainerStore` are the mutable store,
  with the in-place compaction of the pending slice, each method proved against that meaning. `ClickRuns` proves what
  the log guarantees over runs of clicks and verdicts, `ServerRuns` over runs in which the server does anything at any
  time, and `ClickPlans` what one click plans, from a snapshot however stale, and what the store makes of the plan;
  `Presses` says it again from the press of the button to the menu, in plain terms. `UnsentClicks` is about a click
  taken back after anything happened in between, `WireOrder` about clicks recorded in one order and sent in another.
  `LostUpdates` and `FullMenus` are runs, from an empty store, that break what the code's comments promise.
* **Crafting** (`Grids`, `Recipes`, `Shaped`, `Shapeless`, `Matching`, `Crafting`, `CraftPrediction`). `Recipes`
  states on an unbounded plane what it means for a grid to craft a recipe: a shape slid anywhere and perhaps
  mirrored, or a one-to-one pairing. The trimming, padding, mirroring and backtracking code is proved to decide
  exactly that.
* **Chunks** (`ChunkSections`, `ChunkStore`, `SectionUpdates`). Lazily decoded, copy-on-write sections against one
  value per block position, and the packed section updates of protocol 775.
* **Delivery** (`Batching`, `Worlds`, `Verdicts`, `Fanout`, `Publishing`, `Subscriptions`). Bundles, the revision
  counter and poisoning, the event fan-out as interleaved atomic steps and as objects, and the world and the
  fan-out together as the loop and the clicks drive them.
* **Tick machines** (`Cadence`, `Prediction`, `Following`, `Executing`, `Outcomes`, `Routes`, `OrbitMachine`,
  `OrbitBot`, `OrbitRuns`, `OrbitProgress`). The movement cadence and corrections; the follow, flee, dig, build and
  sequence behaviours, and in `Outcomes` what they answer to any sights; route smoothing; and the example bot: one tick
  of it as a relation, the object that carries it out, its whole runs, and in `OrbitProgress` what it must do when.

Pure answers the modelled code asks for and does not compute - whether a cell satisfies an ingredient, what bytes
decode to, what the movement kernel does, where a body can stand, distances, planned routes, whether a send
reached the wire - are parameters, and every theorem holds for all of them. Floats are reals and time is an
integer the caller supplies.

## Where the code and its comments part

The model follows the code. In each case the exact condition under which the comment's promise holds is a lemma,
and a second one is an input or a run that breaks it.

* A rejection does overwrite what the server wrote after the click (`ClickRuns.ServerWriteSurvivesIff`,
  `LostUpdates.ServerWriteLost`), and reopening a window keeps the clicks pending in its predecessor
  (`ClickRuns.ReopenedMenuOverwrittenIff`, `LostUpdates.OldMenuReturns`).
* A click refused by a full queue still moves the cursor, and the prediction of a click whose window closed after
  it was planned opens a menu that no rejection closes (`ClickRuns.ClickUndoneIff`,
  `LostUpdates.FullQueueMovesCursor`, `LostUpdates.ClosedMenuReturns`).
* In a full menu an exact click can lose the stack it moves, or show part of a craft
  (`ClickPlans.OrdinaryClickExchangesIff` and `FullMenus.FullMenuLosesStack`, `ClickPlans.ResultClickCraftsIff` and
  `FullMenus.FullMenuHidesRefill`).
* A click that never reached the wire, taken back at once, leaves no trace only while its 16-bit sequence is not
  pending already and nothing it did went unrecorded (`ClickPlans.UnsentClickUndoneIff`,
  `FullMenus.RepeatedSequenceUndoesBoth`, `LostUpdates.FullQueueMovesCursor`). The store is free while the packet is
  being sent: whatever happens meanwhile, the click is taken back if and only if nothing has ended its wait, and
  otherwise the cursor it moved stays moved (`UnsentClicks.TakenBackIff`, `UnsentClicks.EndsIff`,
  `LostUpdates.ClosedBeforeTakenBack`).
* Clicks from two callers can be recorded in one order and sent in another, and a server that accepts them all then
  poisons the world (`WireOrder.AcceptancePoisonsIff`, `WireOrder.SwappedSends`).
* A section update's state with its twentieth bit set comes back sign-extended (`SectionUpdates.UnpackPackedIff`,
  `SectionUpdates.SignedState`).
* Revisions can reach a subscriber out of order (`Publishing.OrderIff`, `Publishing.OrderIsNotPromised`).
* A follow with patience does not hold its distance, as its comment says it should, but reports being stuck
  (`Following.HoldsIff`, `Following.HoldingGetsStuck`).
* A bridging edge's block fills the cell under the landing only when the landing is beside the start
  (`Executing.FillsUnderLandingIff`, `Executing.SkippingEdge`).
* The example bot divides by a waypoint count of zero when it leaves harm or water before it ever had a circle:
  `OrbitMachine.TickIsLawful` says on exactly which ticks, and `OrbitRuns.CrashHappens` is such a run.

## Model

| member | source | states |
|---|---|---|
| `ClickLog.IndexOfIsFirst` | world/containers_click.go:105-106 | the search for a sequence gives the first pending click with it, or says that none has it |
| `ContainerStore.Container.Update` | world/containers.go:256-280 | a bounded merge: described slots always take their new content, a new slot is refused only if the menu ends up full, every refusal is counted, and the state ID is kept as the server's |
| `ContainerStore.Container.Merge` | world/containers.go:272-280 | the merge loop in any iteration order: the menu's keys and contents as `Merged` allows and one count per refused slot |
| `ContainerStore.Container.PutBack` | world/containers_click.go:165-177 | restoring a snapshot removes undescribed slots, empties empty ones and refills the others, a later entry for a slot winning |
| `ContainerStore.PendingSlice.Compact` | world/containers_click.go:150-158 | filtering inside the same backing array leaves exactly the other windows' clicks in order |
| `ContainerStore.PendingSlice.Slide` | world/containers_click.go:151-157 | the in-place sweep keeps what it must although it overwrites what it reads from |
| `ContainerStore.PendingSlice.Find` | world/containers_click.go:106 | the position of the first pending click with a sequence, or -1 |
| `ContainerStore.PendingSlice.Append` | world/containers_click.go:83 | the queue with one more click, in its own array or a fresh one |
| `ContainerStore.Containers.Track` | world/containers.go:191-208 | an open menu is returned, a missing one is created while there is room, and beyond the bound only a counter moves |
| `ContainerStore.Containers.SlotsChanged` | world/containers.go:256-291 | the whole new state: one menu merged, created on demand, nothing else touched |
| `ContainerStore.Containers.CursorChanged` | world/containers.go:323-330 | the whole new state: an unheld cursor holds nothing and the cursor stays mentioned |
| `ContainerStore.Containers.Snapshot` | world/containers_click.go:50-70 | each named slot's content with undescribed, empty and held kept apart, and the cursor |
| `ContainerStore.Containers.Click` | world/containers_click.go:77-96 | a full queue refuses the click and counts it; otherwise one more record and the predictions merged as a server update would be |
| `ContainerStore.Containers.Confirm` | world/containers_click.go:105-117 | accepted exactly for the oldest record, which is dropped; any refusal changes nothing |
| `ContainerStore.Containers.Reject` | world/containers_click.go:127-139 | the state rewound, newest first, through the first record with the sequence, whose predecessors stay; an unknown sequence changes nothing |
| `ContainerStore.Containers.RestoreDownTo` | world/containers_click.go:133-135 | restoring one record after another, newest first, is the rewind of that suffix |
| `ContainerStore.Containers.RestoreOne` | world/containers_click.go:161-186 | one record put back into its window if that is open, and the cursor in any case |
| `ContainerStore.Containers.Superseded` | world/containers_click.go:150-158 | the window's clicks are dropped without any rollback |
| `ContainerStore.Containers.Closed` | world/containers.go:232-249 | an open menu goes with its clicks; closing what is not open changes nothing |
| `ContainerStore.Containers.Opened` | world/containers.go:213-225 | the menu is replaced by an empty one and its old clicks stay pending |
| `ClickRuns.RewindLook` | world/containers_click.go:127-186 | rolling back any records over any state, slot by slot: the oldest record naming a slot decides it, else it keeps its content |
| `ClickRuns.RewindSplit` | world/containers_click.go:133-135 | rolling back a queue is rolling back its newer part and then its older part |
| `ClickRuns.RestoreCovered` | world/containers_click.go:161-178 | a snapshot covering whatever changed gives back the whole menu, absence of slots included |
| `ClickRuns.ServerWriteSurvivesIff` | world/containers_click.go:127-139 | a rejection leaves a slot as the server wrote it if and only if no rejected click recorded other content for it |
| `ClickRuns.PredictionTouches` | world/containers_click.go:77-96 | a prediction changes the named slots of its one window and nothing else |
| `ClickRuns.ClickRecorded` | client/window.go:61-69 | a recorded click is one record more, and restoring that record gives back the view from before the click |
| `ClickRuns.UnopenedClick` | world/containers_click.go:77-96 | a click recorded for a window that is not open is restored by its record if and only if it predicts nothing or the store has no room for a menu |
| `ClickRuns.ClickUndoneIff` | client/window.go:61-69 | undoing what a click recorded gives back the view if and only if the queue had room and the prediction opened no menu, or it had none and the click moved no cursor |
| `ClickRuns.UndoLog` | world/containers_click.go:77-139 | in every run of clicks and verdicts the records are exactly the unanswered clicks, and rewinding to each gives the view just before and just after it |
| `ClickRuns.RejectRestores` | world/containers_click.go:119-139 | in every run a rejection restores all slots and the cursor to just before the click and leaves the records before it |
| `ClickRuns.ConfirmCommits` | world/containers_click.go:98-117 | in every run a confirmation is accepted exactly for the oldest click and moves the agreed base over exactly that click |
| `ClickRuns.StepElsewhere` | world/containers_click.go:127-186 | while nothing is pending in a window no client step changes its slots |
| `ClickRuns.AnsweredWindowStaysTheServers` | world/containers_click.go:144-158 | in every run after a window is superseded or closed, no confirm, reject or click elsewhere reaches its slots until it is clicked again |
| `ClickRuns.ReopenedMenuOverwrittenIff` | world/containers.go:210-225 | after a reopening, a rejection writes into the new menu if and only if a rejected click recorded content for the slot |
| `ServerRuns.QueueIsUnanswered` | world/containers_click.go:77-158 | in every run of clicks, verdicts and server updates the queue is exactly the records of the unanswered clicks, each taken just before its click |
| `ServerRuns.CursorInAnyRun` | world/containers_click.go:119-186 | in every such run, menus open or not, a rejection puts the cursor back to just before the click, keeps the older clicks pending, and opens and closes nothing; an unknown sequence changes nothing |
| `ServerRuns.RejectInAnyRun` | world/containers_click.go:119-186 | and a slot gets what it showed just before the oldest rejected click naming it, any other keeps its content |
| `ServerRuns.ConfirmInAnyRun` | world/containers_click.go:98-117 | in every such run a confirmation is accepted exactly for the oldest unanswered click, drops that record and changes nothing shown |
| `ServerRuns.RejectRestoresSlot` | world/containers_click.go:119-139 | in every such run a rejection puts a slot back to just before the click unless the server described that slot, or opened, closed or superseded its window, in between |
| `ServerRuns.RejectRestoresWindow` | world/containers_click.go:119-139 | so a window the server left alone gets back its whole menu, whatever the server did to the others |
| `LostUpdates.ServerWriteLost` | world/containers_click.go:119-139 | a run: a slot the server wrote after a click loses that write to the click's rejection |
| `LostUpdates.OldMenuReturns` | world/containers.go:210-225 | a run: a rejection after a reopening puts the old menu's stack into the new menu |
| `LostUpdates.ClosedMenuReturns` | client/window.go:48-69 | a run: a click recorded after its window closed leaves a menu open that its rejection does not close |
| `LostUpdates.FullQueueMovesCursor` | client/window.go:61-69 | a run to 256 unanswered clicks, where one more click is not recorded and moves the cursor |
| `LostUpdates.ClosedBeforeTakenBack` | client/window.go:61-83 | a run in which the window closes between an unsent click's recording and its taking back, and the cursor keeps the stack |
| `ClickPlans.PlanResultClick` | client/window.go:203-240 | claim, predictions, cursor and covered slots of a result click |
| `ClickPlans.ExactIff` | client/window.go:135-197 | a plan is exact if and only if the click is a plain left one and the hand or the slot holds nothing |
| `ClickPlans.PlanCovers` | client/window.go:121-129 | every plan's snapshot names every slot the plan predicts |
| `ClickPlans.PlanTakesEffect` | client/window.go:62-66 | an exact plan recorded with room in the queue merges its predictions into its window and sets the cursor |
| `ClickPlans.ResultItems` | client/window.go:219-230 | a result click predicts each grid slot lighter and the result slot refilled, and no other slot |
| `ClickPlans.OrdinaryClickLeaves` | client/window.go:45-92 | planned from any view, however stale: the cursor gets what the slot was seen to show, the slot what the cursor was seen to hold if there is room, and nothing else changes |
| `ClickPlans.OrdinaryClickExchangesIff` | client/window.go:170-196 | planned from the menu as it is, for either protocol's notion of an empty stack, an ordinary exact click exchanges slot and cursor and touches nothing else, if and only if the slot has room or there was nothing to put down |
| `ClickPlans.ResultClickCraftsIff` | client/window.go:199-240 | a result click comes to exactly one craft - result in hand, one item less per cell, the lighter grid's result shown - if and only if the grid makes nothing or the layout's slots find room |
| `ClickPlans.LayoutsAreGood` | internal/adapter/v1_8/craft.go:27-40 | every crafting layout has four or nine different grid slots and a result slot apart from them |
| `Presses.CraftClickIff` | client/window.go:160-165 | a click takes a result if and only if the adapter crafts, the hand holds nothing, and it is on slot 0 of a crafting table or of the player's own menu |
| `Presses.TakingCrafts` | client/window.go:158-240 | such a click is planned as the craft of slots 1 to 9, or 1 to 4, row by row, and comes to exactly that craft if and only if the grid makes nothing or the slots find room |
| `Presses.ClickingExchanges` | client/window.go:167-197 | every other predictable click, slot and cursor in full: a stack in the slot is picked up, a stack in hand put down into a slot described already or found room for and else lost, and nothing else changes |
| `Presses.ClaimIs` | client/window.go:155-240 | the claim is what the slot shows, or, of a result taken, what the grid makes |
| `Presses.PredictionsAreKnown` | client/window.go:170-230 | every predicted slot is known, and held exactly when it holds a stack |
| `Presses.FitsIff` | client/window.go:199-240 | the craft has room while the menu with its ten or five slots stays within 1024 |
| `Presses.OneIsUsed` | internal/adapter/v1_8/craft.go:74-91 | a stack of several of an item loses one and keeps everything else, and anything less is gone |
| `Presses.ResultAsStack` | internal/adapter/v1_8/craft.go:93-101 | the result's item, variant and count in the wire's narrow integers, with no further data |
| `Presses.GridShows` | internal/adapter/v1_8/craft.go:60-67 | row y, column x of the grid is the stack at place y*width+x, and nothing for what is no item |
| `Presses.SatisfiesIff` | crafting/match.go:146-166 | an item satisfies what wants it in its own variant or, where -1 is wanted, in any |
| `Presses.LighterShows` | crafting/craft.go:20-29 | a craft leaves each place one item fewer, or bare |
| `ClickPlans.Perform` | world/containers_click.go:50-158 | every operation on the store as objects is a step of the log |
| `ClickPlans.ClickWindow` | client/window.go:45-92 | a click from plan to wire, planned from any snapshot and with any operations on the store while it is being sent: refused unchanged, and as unpredictable exactly on protocol 47 for a click that is not a plain left one with at most one side occupied; or recorded, then those operations, then taken back if it was not sent |
| `ClickPlans.UnsentClickUndoneIff` | client/window.go:75-88 | for every click and any store, an unsent click taken back at once leaves view and queue as they were if and only if its sequence was not already pending and nothing it did went unrecorded: with room, no menu opened; with a full queue, no cursor moved |
| `UnsentClicks.EndsIff` | world/containers_click.go:98-158 | in every run a waiting click stops waiting exactly by its own confirmation, by the rejection of it or an older waiting click, or by the end of its window |
| `UnsentClicks.WaitsIff` | world/containers_click.go:77-158 | in every run a click waits exactly if it found room in the queue and nothing has ended its wait since |
| `UnsentClicks.TakenBackIff` | client/window.go:75-88 | in every run, whatever happens between recording and taking back: the rejection resolves, the cursor is as just before the click and the older clicks still wait if and only if the click still waits; otherwise the store stays exactly as it is |
| `WireOrder.AcceptancePoisonsIff` | client/window.go:59-78 | a server accepting every click in wire order poisons the world if and only if an answered click was recorded after one it was sent before |
| `WireOrder.SwappedSends` | client/window.go:59-78 | two clicks recorded in one order and sent in the other, and the poisoning acceptance |
| `FullMenus.FullMenuLosesStack` | client/window.go:170-196 | a run to a full menu, where placing into an undescribed slot empties the cursor and fills no slot |
| `FullMenus.FullMenuHidesRefill` | client/window.go:199-240 | for every recipe registry, layout and full menu describing the grid and not the result, with a craft that leaves another: a run ending in a click that is not that craft, the result slot still undescribed |
| `FullMenus.CobbleRefills` | client/window.go:199-240 | there is such a registry and menu |
| `FullMenus.RepeatedSequenceUndoesBoth` | client/window.go:75-88 | a run in which taking back an unsent click whose sequence repeats takes back the click it repeats |
| `Grids.Trim` | crafting/grid.go:52-77 | the smallest rectangle: something lies on each of its edges, it shows the same picture moved by the offset, and an empty grid trims to the empty one |
| `Grids.FindBounds` | crafting/grid.go:53-66 | the scanned bounds enclose everything and each bound is attained |
| `Grids.Cut` | crafting/grid.go:68-74 | the row-by-row copy has at each place what the grid has there |
| `Shaped.Pad` | crafting/match.go:84-100 | rows padded to the widest show exactly the shape |
| `Shaped.PatternOf` | crafting/match.go:84-131 | the trimmed pattern is tight and shows the shape at some offset, and is empty for a shape wanting nothing |
| `Shaped.Mirror` | crafting/match.go:134-144 | the flipped pattern shows at each place what the pattern shows at the opposite one |
| `Shaped.ShapedMatch` | crafting/match.go:152-173 | true exactly when the sizes agree and so does every cell, a wanted cell satisfied and an unwanted one empty |
| `Shaped.TightFixesOffset` | crafting/match.go:146-151 | two tight pictures agreeing at any offset are the same size and agree at offset zero only |
| `Shaped.TightMatchIsSliding` | crafting/match.go:20-27 | the cell-by-cell test of tight pictures holds exactly when they agree at some offset of the plane |
| `Shaped.SlidingTrimmed` | crafting/match.go:20-27 | sliding the trimmed pattern over the trimmed grid is sliding the shape over the whole grid |
| `Shaped.MirrorShows` | crafting/match.go:133-144 | mirroring a tight pattern keeps it tight and shows the mirrored shape |
| `Shaped.MatchShape` | crafting/match.go:54-63 | the shaped test succeeds exactly when the shape or its mirror image lies somewhere on the grid with every ingredient met and every other cell empty |
| `Shapeless.Pair` | crafting/match.go:194-211 | the backtracking search succeeds exactly when the remaining cells have an injective assignment, and a failed branch leaves the used array as it found it |
| `Shapeless.OccupiedCells` | crafting/match.go:182-187 | every occupied position once, with what lies there |
| `Shapeless.PairingFromAssignment` | crafting/match.go:188-213 | an injective assignment of as many cells as ingredients is a bijection |
| `Shapeless.AssignmentFromPairing` | crafting/match.go:188-213 | a bijection gives equal counts and an assignment for the search to find |
| `Shapeless.ShapelessMatch` | crafting/match.go:181-214 | true exactly when occupied cells and ingredients can be paired one to one with every pair satisfied |
| `Matching.Matches` | crafting/match.go:53-69 | one recipe against the trimmed grid holds exactly when the whole grid crafts it |
| `Matching.Match` | crafting/match.go:28-50 | the first recipe in item-ID order that the grid crafts, whatever the map's iteration order, and none for an empty grid |
| `Recipes.ShapeWants` | crafting/match.go:8-10 | a shape's empty cells are those of item 0, and those it does not have |
| `Recipes.FirstIsUnique` | crafting/match.go:15-18 | at most one recipe is first, so the answer does not depend on the run |
| `Recipes.MadeMoved` | crafting/match.go:20-27 | grids showing the same picture, moved or mirrored, make the same recipe |
| `Recipes.Embedded` | crafting/match.go:20-27 | a grid redrawn anywhere inside a larger empty one makes the same recipe |
| `Recipes.Reflected` | crafting/match.go:23-27 | a grid and its left-to-right mirror image make the same recipe |
| `Crafting.Clone` | crafting/grid.go:80-85 | an equal grid in memory of its own |
| `Crafting.Craft` | crafting/craft.go:14-33 | the first matching recipe's result and a fresh grid one item lighter, the source grid untouched |
| `Crafting.ShiftCraft` | crafting/craft.go:43-61 | it terminates with the grid after the largest number of crafts that keep yielding the first result, and their counts added up |
| `Crafting.YieldIsLargest` | crafting/craft.go:48-57 | every one of those crafts yields the first result's item and the next one would not |
| `Crafting.YieldMakes` | crafting/craft.go:48-57 | each of them makes that item in that variant, and the next would make something else or nothing |
| `Crafting.AfterCells` | crafting/craft.go:20-29 | k crafts take exactly k items from each occupied cell, or all it had |
| `Crafting.LightenWeighs` | crafting/craft.go:48-60 | a craft makes a grid holding anything strictly lighter, which is why the loop ends |
| `CraftPrediction.PredictCraft` | internal/adapter/v1_8/craft.go:54-102 | the wrapped result stack of what the stacks' grid makes, and every stack with one item fewer |
| `CraftPrediction.ReadGrid` | internal/adapter/v1_8/craft.go:60-67 | the stacks as a 2x2 or 3x3 grid of cells |
| `CraftPrediction.WriteGrid` | internal/adapter/v1_8/craft.go:74-91 | each stack keeps its identity and remainder and loses one item, or is gone |
| `CraftPrediction.NextResult` | client/window.go:227-230 | predicting from the stacks that remain gives what the lighter grid makes |
| `ChunkSections.AddressOf` | world/chunks.go:88-97 | the block at offsets x, y, z of a section of a column is entry (y*16+z)*16+x of that section, on negative coordinates too |
| `ChunkSections.AddressesDiffer` | world/chunks.go:340-346 | so column, section and index together name one block |
| `ChunkSections.Section.Blocks` | world/chunks.go:68-84 | decoding on first use and reading the cache answer the same |
| `ChunkSections.Section.Block` | world/chunks.go:88-99 | the state at an index, or nothing when the section cannot be decoded there |
| `ChunkSections.Section.WithBlock` | world/chunks.go:105-123 | a new section differing at exactly one index, the old one unchanged, or none exactly when that index cannot be decoded |
| `ChunkSections.BlockIn` | world/chunks.go:153-192 | a block read through a snapshot, by its offsets in its section, whether or not it is the read that decodes its section |
| `ChunkStore.Chunks.Snapshot` | world/chunks.go:196-209 | the snapshot shares its sections with the store and is sound |
| `ChunkStore.Chunks.Loaded` | world/chunks.go:216-230 | at every position: the sent sections replace theirs, the last sent winning, all else stays, and held sections stay intact |
| `ChunkStore.Chunks.Unloaded` | world/chunks.go:235-242 | at every position: the column is forgotten and nothing else, and held sections stay intact |
| `ChunkStore.Chunks.Apply` | world/chunks.go:289-308 | applied exactly where a state is known, changing that position only, and held sections stay intact |
| `ChunkStore.Chunks.BlocksChanged` | world/chunks.go:265-286 | applied plus dropped are the changes supplied, the applied ones are those at known positions in order, and each position ends as the changes in order leave it |
| `ChunkStore.Replay` | world/chunks.go:162-308 | in any run of loads, unloads and changes, the store and every snapshot ever taken agree with a flat map from positions to states, decoded early or late |
| `ChunkStore.BlockShows` | world/chunks.go:88-123 | in any run, from the load that sent a section until it is sent again or its column unloaded, the block at x, y, z of it shows what its last change gave it, or else entry (y*16+z)*16+x of the 4096 states the section decodes to |
| `ChunkStore.ChangeReplacesEntry` | world/chunks.go:105-123 | a change of a block of a loaded section replaces exactly that entry |
| `ChunkStore.UndecodableShowsNothing` | world/chunks.go:68-99 | a section no decoder reads shows nothing and takes no change |
| `ChunkStore.UnloadedShowsNothing` | world/chunks.go:181-242 | a column never loaded, or unloaded since, shows nothing |
| `ChunkStore.KnownSplits` | world/chunks.go:265-280 | the applied changes of a list are those of its parts, in order |
| `ChunkStore.KnownOne` | world/chunks.go:265-280 | and a single change is applied exactly where the view shows a block |
| `ChunkStore.Round` | world/chunks.go:31-37 | a read through a held snapshot followed by a change to the store leaves every held snapshot sound |
| `SectionUpdates.SectionChanges` | internal/adapter/v26_1/reduce.go:475-493 | one unpacked change per record, in order |
| `SectionUpdates.UnpackNamesSection` | internal/adapter/v26_1/reduce.go:479-490 | whatever the record, and for every section a packet can name, the change lands in the section its packet names |
| `SectionUpdates.RecordSays` | internal/adapter/v26_1/reduce.go:463-490 | a record is its state and then one hexadecimal digit each of x, z and y, and sets that block of the section to that state |
| `SectionUpdates.UnpackPackedIff` | internal/adapter/v26_1/reduce.go:463-468 | unpacking a packed record gives back its block always, and its state if and only if the sign bit is clear |
| `SectionUpdates.SignedState` | internal/adapter/v26_1/reduce.go:463-468 | a packed record whose state 0x80000 comes back as 0xFFF80000 |
| `SectionUpdates.UpdateStaysInSection` | internal/adapter/v26_1/reduce.go:475-493 | applying an update changes no block outside the section it names |
| `Batching.Batcher.Accept` | version/batch.go:67-98 | each packet's outcome and the whole next state, with every batch in memory of its own |
| `Batching.Batcher.Make` | version/batch.go:51-60 | refused exactly for a limit that bounds nothing |
| `Batching.AcceptAll` | version/batch.go:67-109 | over a whole stream, every batch still holds at the end what it held when handed out, although the buffer is reused |
| `Batching.GroupConserves` | version/batch.go:67-98 | the batches' packets and then the open bundle are the stream without its delimiters, in order |
| `Batching.GroupProper` | version/batch.go:46-50 | every batch is a bundle of ordinary packets within the limit or a single packet |
| `Batching.FinishIff` | version/batch.go:100-109 | the stream may end exactly when its delimiters pair up, or where there are no bundles |
| `Batching.GroupSerialised` | version/batch.go:67-98 | writing out any proper batches and grouping what was written gives those batches |
| `Batching.RegroupingIsIdentity` | version/batch.go:67-98 | the batches of any accepted stream survive being written out and grouped again |
| `Worlds.World.Apply` | world/world.go:171-193 | every reducer in order up to the first failure; success bumps the revision once, failure poisons and leaves the revision |
| `Worlds.World.Amend` | world/world.go:205-220 | a successful mutation bumps the revision once and stamps all its events with it; a failed one does not poison |
| `Worlds.ReducersInOrder` | world/world.go:171-187 | each reducer sees the store and the local player as the one before it left them, and the first failure ends the batch |
| `Worlds.BatchesInOrder` | world/world.go:171-193 | a batch is reduced at the next revision from the local player the last one left; a failure keeps revision and local player |
| `Worlds.SnapshotsAreWhole` | world/world.go:158-220 | in every run the revision counts the successes and a snapshot shows whole operations only |
| `Worlds.PoisonAbsorbs` | world/world.go:165-177 | once poisoned, no operation changes the world and no snapshot exists |
| `Verdicts.VerdictsPoisonIff` | internal/adapter/v1_8/reduce.go:744-765 | a batch of verdicts poisons exactly when one of them, at its turn, accepts a click pending behind another; the store is then as the verdicts before the first such left it, else as all of them do |
| `Verdicts.UnknownChangesNothing` | internal/adapter/v1_8/reduce.go:744-765 | a verdict on a click nobody waits for changes nothing and is no failure |
| `Verdicts.RollBackRefusesCleanly` | client/window.go:81-83 | taking back an unsent click refuses before it mutates, as amendments assume |
| `Publishing.SentRevisionsExist` | client/loop.go:204-218 | under every interleaving of applying, amending, publishing and consuming, every event a subscription was sent carries the number of successes when it was emitted, which the world has reached |
| `Publishing.RunKeeps` | client/loop.go:204-218 | under every interleaving each waiting or published production is what its operation emitted, is published at most once, and the fan-out's stream is the published events in order |
| `Publishing.LaterIsLarger` | world/world.go:171-220 | a later operation's events carry a larger revision, and all events of one operation the same |
| `Publishing.OrderIff` | client/loop.go:204-218 | what has been published is in order of revisions if and only if no publication went past an older one that was waiting already and has been published since |
| `Publishing.OrderIsNotPromised` | client/window.go:59-73 | a run in which a click amends and publishes between the loop's apply and its publish, so the stream shows revision 2 before 1 |
| `Fanout.StepKeeps` | client/subscription.go:49-151 | every atomic step of publishers, consumers and closers keeps the fan-out's invariant |
| `Fanout.SelectsIff` | client/subscription.go:120-125 | an event is wanted exactly when one of its domains is selected |
| `Fanout.WantedSplits` | client/subscription.go:120-131 | what is wanted of some events and then of more is wanted of all, in order |
| `Fanout.GapFreeOrClosed` | client/subscription.go:83-140 | under every interleaving a subscription is sent a gap-free prefix of what it selected, all of it while open between publications unless closing has begun, and an overflowed one is closed |
| `Fanout.ClosedIsFinal` | client/subscription.go:48-69 | nothing is sent to a closed subscription and its reason never changes |
| `Fanout.OverflowsIff` | client/subscription.go:71-80 | a subscription overflows exactly when a selected event finds it open and full |
| `Fanout.EndDropsOnlyClosed` | client/subscription.go:119-139 | ending a publication drops closed subscriptions only and keeps the others in order |
| `Subscriptions.Subscription.Deliver` | client/subscription.go:63-81 | one non-blocking send: sent, refused closed, or closed by overflow |
| `Subscriptions.Subscription.Close` | client/subscription.go:42-59 | closing is idempotent and keeps the first reason |
| `Subscriptions.Fanout.Subscribe` | client/subscription.go:92-107 | refused without a buffer or a domain, else appended open and empty |
| `Subscriptions.Fanout.Publish` | client/subscription.go:111-140 | each subscription is offered the batch and exactly the survivors remain, in order, in the same array with its tail cleared |
| `Subscriptions.Fanout.Sweep` | client/subscription.go:119-135 | sliding survivors down the list while delivering loses and repeats none |
| `Subscriptions.OfferedMeans` | client/subscription.go:120-131 | a batch sends a first part of what is selected; all of it exactly when the subscription is open and the buffer has room, and it overflows exactly when open without room |
| `Cadence.ServerFollows` | predict/predict.go:489-531 | folding the packets sent gives the server the body's exact yaw and pitch and a position within the threshold after every report |
| `Cadence.SinceCounts` | predict/predict.go:504-526 | the counter is the number of packets since a position and never passes twenty |
| `Cadence.TwentyAtMost` | predict/predict.go:504-505 | at most twenty packets in a row lack a position |
| `Cadence.ForcedOnTheTwentyFirst` | predict/predict.go:504-526 | a body that stays within 0.03 blocks sends its forced position exactly on the twenty-first packet |
| `Cadence.PositionalIff` | predict/predict.go:504-531 | the first packet carries a position, and a later one exactly when the body is more than 0.03 blocks from the last position sent or twenty packets have carried none |
| `Cadence.LookingIff` | predict/predict.go:504-531 | the first packet carries yaw and pitch, and a later one exactly when either has changed since the packet before |
| `Cadence.SentTells` | predict/predict.go:553-571 | every packet says truly what it carries of the pose, and always whether the body is on the ground and whether it is blocked |
| `Prediction.Loop.Adopt` | predict/predict.go:366-380 | the server's position is taken exactly when a body spawns there |
| `Prediction.Loop.Reconcile` | predict/predict.go:390-436 | an unchanged server position does nothing; an accepted change replaces the body, keeps the keys held, empties the queue and counts once reporting has begun |
| `Prediction.Loop.Retain` | predict/predict.go:440-449 | the queue is the last commands up to the bound since the server's position was last accepted, with consecutive ticks |
| `Prediction.Loop.ShiftDown` | predict/predict.go:445-446 | the full queue moves down one place in its own memory |
| `Prediction.Loop.Report` | predict/predict.go:489-531 | the packet sent and the memory of it are the cadence rule's |
| `Prediction.Loop.Step` | predict/predict.go:315-362 | one tick: adopted or skipped unchanged, reconciled, one command retained, one packet sent |
| `Prediction.CorrectionsAreJumps` | predict/predict.go:382-436 | in every run the correction count is the number of accepted server position changes after the first report |
| `Prediction.PlacedIff` | predict/predict.go:366-380 | the loop has a body exactly when one spawned on an earlier tick |
| `Prediction.ReportsTheBody` | predict/predict.go:346-361 | a tick sends exactly when a body has spawned by then, and the pose it sends is that of the body it ends with |
| `Prediction.TickTells` | predict/predict.go:315-436 | a tick in full: the body the server moved, looking where the server says with the keys still held; what the kernel makes of it, if the tick completed; and a packet that tells its feet, look, ground and collision |
| `Prediction.ClockCounts` | predict/predict.go:329-361 | the loop's clock is the number of poses told, one for every tick since a body spawned |
| `Prediction.ReportsInCadence` | predict/predict.go:489-531 | after any run the loop's memory of its reports is the cadence rule's of exactly the poses it has told |
| `Prediction.ServerFollowsTheBody` | predict/predict.go:489-531 | after every tick of any run, a server believing the packets holds the body's exact yaw and pitch and a position within 0.03 blocks of its feet |
| `Prediction.IssuedSinceAccepted` | predict/predict.go:404-449 | in every run the commands not superseded are those of the ticks since the server's position was last accepted, numbered by the clock |
| `Prediction.RunLoop` | predict/predict.go:286-362 | the loop over any run, the kernel's answer free to differ on every tick: what it remembers at the end and what every tick sent are `Recall`'s and `PacketAt`'s, and it retains the last commands since the server's position was last accepted, up to its bound |
| `Following.FollowStopsFrom` | behaviour/follow.go:82-140 | with positive patience a follow stops within patience times one more than its first distance over epsilon, whatever it sees |
| `Following.FleeStopsFrom` | behaviour/follow.go:194-239 | the same for a flee and the distance it has left to safety |
| `Following.FollowStops` | behaviour/follow.go:115-140 | from any state, improvement and patience bound the ticks left |
| `Following.FleeStops` | behaviour/follow.go:214-223 | from any state, improvement and patience bound the ticks left |
| `Following.HoldingGetsStuck` | behaviour/follow.go:103-110 | with patience, a follow whose entity stays put runs for exactly its patience, arrived or not, and is then stuck |
| `Following.HoldsIff` | behaviour/follow.go:103-133 | a follow whose entity stays put holds its distance for good if and only if it has no patience to lose and the entity is within reach |
| `Following.SequenceStops` | behaviour/mine.go:51-80 | stages that stop make a sequence that stops within the sum of their bounds and one finishing tick each |
| `Following.OneStageAtATime` | behaviour/mine.go:70-74 | a tick touches the active stage only and moves on by at most one |
| `Outcomes.FleeAnswers` | behaviour/follow.go:194-239 | over any sights, a flee waits for its body, is complete exactly when the threat is gone or at the safe distance, stuck exactly when patience's worth of sights got it no further, and otherwise moves |
| `Outcomes.FollowAnswers` | behaviour/follow.go:82-133 | over any sights, a follow waits for its body, stops exactly for a lost entity, one too far off, or patience's worth of sights no nearer, and otherwise moves exactly when not close enough |
| `Outcomes.FleeIsOver` | behaviour/follow.go:194-239 | a flee with patience does not go on over patience times one more than its gains left, in any sights of its threat |
| `Outcomes.FollowIsOver` | behaviour/follow.go:115-140 | nor does a follow, of the gains in the distance it starts at |
| `Outcomes.SequenceAnswers` | behaviour/mine.go:51-80 | a sequence answers what its active stage does, but for a stage that completes with others to come, which hands over on the next tick |
| `Executing.FillsUnderLandingIff` | behaviour/build.go:136-185 | a placing edge's block fills the cell under the landing if and only if the landing is beside the start, for a pillar straight above |
| `Executing.SkippingEdge` | behaviour/build.go:67-89 | a path a build accepts whose block does not fill the cell under its landing |
| `Executing.Build.Make` | behaviour/build.go:67-89 | the path's placing edges in order, refused exactly when there are none |
| `Executing.PlacesInOrder` | behaviour/build.go:20-30 | whatever is seen, the placements sent are a prefix of the path's, never stopping short, and it completes exactly when all are sent and settled |
| `Outcomes.BuildAnswers` | behaviour/build.go:92-134 | over any sights, a build sends its next placement exactly when the player is known and the last has settled - the world moved on, or waited long enough - and is complete when there is none |
| `Outcomes.DigAnswers` | behaviour/mine.go:122-145 | over any sights, a dig starts on the first that knows the player, sends nothing in between, and finishes on exactly the last of its ticks |
| `Outcomes.PlacesOn` | behaviour/build.go:144-185 | a bridge goes on the side of the block underfoot that faces the landing, a pillar on its top |
| `Executing.WorkStops` | behaviour/build.go:100-111 | a dig or build ends within its ticks, or within one tick and its settling per placement left |
| `Executing.JobStops` | behaviour/mine.go:18-26 | any sequence of digs and builds ends within the sum of those bounds, whatever revisions it sees |
| `Routes.ClearLine` | examples/orbit/route.go:280-290 | true exactly when the body can stand at every probe along the line and at its end |
| `Routes.StraightIff` | examples/orbit/route.go:214-290 | a shortcut is one with no jump between, level ends, and a place to stand every fifth of a block along it and at its end |
| `Routes.JumpBetween` | examples/orbit/route.go:239-247 | true exactly when a step between needs a jump |
| `Routes.FurthestFrom` | examples/orbit/route.go:214-229 | the furthest step reachable straight at equal height without a jump, else the next one |
| `Routes.Taut` | examples/orbit/route.go:205-236 | it ends with a subsequence keeping both ends, each kept step the furthest from the one before |
| `Routes.JumpsAreKept` | examples/orbit/route.go:216-223 | no jump step is dropped and none ends a shortcut |
| `Routes.Plan` | examples/orbit/route.go:133-196 | a route is never empty, ends where the search ended and keeps every jump; there is none exactly when the search found no way |
| `OrbitMachine.TickIsLawful` | examples/orbit/bot.go:202-288 | any tick from any state: the moves the machine allows, paced strikes never made in harm, a silent Dead, an absorbing Done, guarded steps but the one out of Trapped, counted corrections with their exit, and a panic if and only if nothing interrupts, there is no circle and the escape or the walk to water ends |
| `OrbitMachine.OneTick` | examples/orbit/bot.go:202-263 | a tick has one outcome: memory and world decide the action and the next memory |
| `OrbitMachine.StrikesInReach` | examples/orbit/bot.go:678-709 | a swing goes to a living entity in reach, the one fought for no longer than the engagement or the attacker of this tick |
| `OrbitMachine.EscapesWhenClear` | examples/orbit/bot.go:601-636 | a living bot in harm steps out of it whenever one of the eight headings is clear, until its escape has lasted too long |
| `OrbitMachine.TurnsIffProvoked` | examples/orbit/bot.go:837-872 | the bot turns to fight exactly an attacker that is known, alive and not known to stay put |
| `OrbitProgress.JoinsAtSpawn` | examples/orbit/bot.go:291-321 | a ready, undisturbed joining tick that knows the spawn makes the circle around it and ends the joining |
| `OrbitProgress.JoinTimesOutIff` | examples/orbit/bot.go:291-315 | without one it waits from the first ready tick on, and exits with code 3 exactly when the timeout is reached |
| `OrbitProgress.OrbitsIffArrived` | examples/orbit/bot.go:757-788 | a returning bot orbits exactly when it is within the waypoint radius of the nearest waypoint |
| `OrbitProgress.GoesOnAtWaypoint` | examples/orbit/bot.go:334-360 | an unprovoked orbiting bot goes on to the next waypoint exactly when it is at its own |
| `OrbitProgress.SkipsThenTrapped` | examples/orbit/bot.go:483-508 | a waypoint no route leads to is skipped while skips are left, and then the bot is trapped once it has made no progress for long enough |
| `OrbitProgress.ProvokesIff` | examples/orbit/bot.go:837-856 | what provokes: a known attacker that is alive and, if named, can follow |
| `OrbitProgress.FightsUntil` | examples/orbit/bot.go:678-723 | a fight ends exactly when the target is unknown, dead, hunted too long, too far off or unreachable, and swings exactly in reach with the cooldown over |
| `OrbitProgress.DiesAndRises` | examples/orbit/bot.go:266-275 | a death is answered with one request, and a confirmed respawn leaves Dead |
| `OrbitProgress.EscapesFromHarm` | examples/orbit/bot.go:213-217 | a ready bot standing in harm escapes until it has taken too long |
| `OrbitProgress.EscapesAlong` | examples/orbit/bot.go:601-662 | the way out is the first of eight headings that is clear, and with none the nearest safe ground known |
| `OrbitProgress.EscapeIsOver` | examples/orbit/bot.go:601-604 | out of harm the escape is over |
| `OrbitProgress.DousesIff` | examples/orbit/bot.go:219-240 | a burning bot takes to water, and keeps to it, exactly while there is some near the circle that it reaches before the fire would be out |
| `OrbitProgress.NoWayToWater` | examples/orbit/bot.go:563-582 | and gives up when it has no way to it |
| `OrbitProgress.DousingIsOver` | examples/orbit/bot.go:563-566 | with the fire out the walk to water is over |
| `OrbitProgress.WaitsUntil` | examples/orbit/bot.go:790-835 | a trapped bot exits exactly at its budget, asks to die exactly at the interval, and else looks for a way exactly when the world has changed |
| `OrbitProgress.WalksToFirstUnreached` | examples/orbit/bot.go:372-473 | along a kept or new route the bot steps to the first leg not reached, unless changed ground ahead cannot be walked or the step would hurt an unhurt body |
| `OrbitProgress.DropsRouteWalkedOut` | examples/orbit/bot.go:428-436 | a route walked out is dropped |
| `OrbitBot.Bot.Advance` | examples/orbit/bot.go:202-263 | the object's tick is one tick of the machine, with everything `TickIsLawful` proves of it |
| `OrbitBot.Bot.FollowRoute` | examples/orbit/bot.go:372-439 | nothing exactly when a new plan was needed and none exists; otherwise the leg walked to is the first not yet reached, and the route is dropped exactly when walked out, changed ahead or about to hurt a body that is not hurt already |
| `OrbitRuns.Drive` | examples/orbit/bot.go:202-263 | the bot over any run with a clock that does not go backwards does and remembers what the machine does, tick by tick, to the end of the run or to its panic |
| `OrbitRuns.RunsAreSound` | examples/orbit/bot.go:202-263 | every run of the machine: allowed moves only, Done is final, strikes a cooldown apart, a second respawn request only after a confirmed respawn, Dead is still, steps guarded, an exit on exactly the correction that passes the budget or out of a trap, and a panic only without a circle ever |
| `OrbitRuns.OneRun` | examples/orbit/bot.go:202-263 | two runs of the machine over the same moments agree for as long as both go on |
| `OrbitProgress.JoinsInTime` | examples/orbit/bot.go:291-321 | in any run, the first undisturbed ready tick with a spawn ends the joining, if it comes in time |
| `OrbitProgress.ExitsTooLate` | examples/orbit/bot.go:291-315 | and without one in time the run exits with code 3 |
| `OrbitRuns.CrashRun` | examples/orbit/bot.go:601-608 | any run of the machine that stands in harm before it joined and then out of it survives the first tick and panics on the second |
| `OrbitRuns.CrashHappens` | examples/orbit/bot.go:601-608 | the bot's own run over those two ticks is such a run |

## Left out

- Events the stores emit, their sorting and payloads, and the recipe, trade, property and title fields of menus:
  they record what the modelled state already says.
- `client.CloseWindow`: a close followed by emptying the cursor, both of which are modelled.
- Locks and goroutines, beyond the interleavings of `Fanout` and `Publishing` and what falls between the planning,
  the recording, the sending and the taking back of a click.
- Session events, which the loop publishes in the same batch as the world's.
- Two readers decoding one section at once: decoders are pure, so the second answer is the first.
- Light, block entities and the raw bytes a section keeps beside its states.
- Slice and map representation in Go: arrays model the slices changed in place, maps are values held in fields.
- The sort of item IDs: the next key is taken as the least one left.
- Floating-point rounding and NaN: reals throughout, so a distance that rounds to its threshold is not modelled.
- Unread integer widths: menu IDs, slots, ticks, build coordinates and revisions are unbounded where nothing wraps
  in practice; the wraps that matter (stack counts, click sequences, section shifts, states) are written out.
- The movement kernel, `navigation.Find`, terrain queries, decoders and recipe data are parameters.
- Failed sends and kernel errors inside the prediction loop end the loop there; the model covers ticks with a placed
  player, because the others do nothing.
- Container remainders of a craft (a cake's bucket), which the source leaves out too.
- Protocol 775's state-ID bookkeeping; its notion of an empty stack is a parameter of the plans, and it predicts no
  crafts.
- Action payloads of the behaviours: step geometry, looks, hands, faces of a dig and hotbar slots; the consuming
  and fishing behaviours; authorization scopes.
- Worlds.SnapshotsAreWhole: assumes mutations refuse before they mutate, as the store's own comment promises;
  `Verdicts.RollBackRefusesCleanly` proves it of the one that can fail.
- OrbitBot.Bot.Advance: requires the planner's routes to be non-empty, which `Routes.Plan` proves of the planner; a
  circle, once there is one, has a waypoint, as the bot's configuration makes it.
- ClickPlans.ResultClickCraftsIff: speaks of a plan made from the current menu, since a craft is defined by it.
- Following.FollowStopsFrom: counts ticks with the body placed and the entity tracked; an unplaced body waits as
  long as it takes.
- Executing.JobStops: counts ticks with the player known, for the same reason.
- `World.Register` and the refusal of late reducers: the list of reducers is fixed when the world is made.
- Connecting, authentication, the close lifecycle, keepalives, readiness, packet tables, chat, registries and the
  other bounded stores.
