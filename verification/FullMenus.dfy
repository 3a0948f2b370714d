/** Concrete runs in which a full menu, or a sequence used twice, breaks what an exact click promises. */
module FullMenus {
  import opened Options
  import opened Items
  import opened Grids
  import opened Recipes
  import opened CraftPrediction
  import opened ClickLog
  import opened ClickRuns
  import opened ServerRuns
  import opened ClickPlans
  import opened LostUpdates

  /** Two pieces of cobblestone. */
  const PAIR: Content := Some(Stack(4, 2, 0, 0))

  ghost function UpTo(n: nat): (slots: set<int>)
    ensures |slots| == n && forall s :: s in slots <==> 1 <= s <= n
  {
    if n == 0 then {} else UpTo(n - 1) + {n as int}
  }

  /** Slots 1 to n, two pieces of cobblestone in each. */
  lemma Cobbled(n: nat) returns (slots: Slots)
    ensures |slots.Keys| == n && forall s :: s in slots <==> 1 <= s <= n
    ensures forall s :: s in slots ==> slots[s] == PAIR
  {
    slots := map s | s in UpTo(n) :: PAIR;
    assert slots.Keys == UpTo(n);
  }

  /** The player's menu, describing these slots. */
  function Player(slots: Slots, cursor: Cursor): State {
    State(View(map[0 := slots], cursor), map[0 := Meta(0, false, 0)], true, [], 0, 0)
  }

  ghost predicate Full(slots: Slots) {
    |slots.Keys| == MAX_SLOTS
  }

  lemma FullReached(slots: Slots, cursor: Cursor) returns (trace: seq<State>, ops: seq<Op>)
    requires Full(slots) && (!cursor.held ==> cursor.item == None)
    ensures ReachedBy(trace, ops, Player(slots, cursor))
  {
    var op, described := ServerSlots(0, slots, 0, false), Player(slots, Cursor(None, false)).(cursorSent := false);
    AllMergedFromNothing(slots);
    assert slots.Keys - slots.Keys == {};
    assert described == SetMenu(TrackStep(START, 0), 0, slots, Meta(0, false, 0));
    trace, ops := [START], [];
    assert ReachedBy(trace, ops, START);
    RunMore(trace, ops, START, op, described);
    trace, ops := trace + [described], ops + [op];
    RunMore(trace, ops, described, ServerCursor(cursor.item, cursor.held), Player(slots, cursor));
    trace, ops := trace + [Player(slots, cursor)], ops + [ServerCursor(cursor.item, cursor.held)];
  }

  lemma AllMergedFromNothing(items: Slots)
    requires |items.Keys| <= MAX_SLOTS
    ensures Merged(map[], items, items)
  {
  }

  /** Placing into a slot that was never described. */
  const PLACE := Press("", 0, 5000, 0, ModePickup)

  const PLACE_DIRT := Click(7, 0, [5000], [SlotSnapshot(5000, DIRT, true, true)], Some(Cursor(None, false)))

  lemma PlaceIsPlanned(reg: Registry, slots: Slots)
    requires 5000 !in slots
    ensures ClickOp(PlanOf(PROTOCOL_47, reg, slots, Cursor(DIRT, true), PLACE), 7, 0) == PLACE_DIRT
  {
  }

  lemma PlaceRefused(slots: Slots) returns (st': State)
    requires Full(slots) && 5000 !in slots
    ensures Step(Player(slots, Cursor(DIRT, true)), PLACE_DIRT, st')
    ensures st'.view == View(map[0 := slots], Cursor(None, false))
  {
    assert PLACE_DIRT.predicted[..0] == [];
    assert ItemsOf(PLACE_DIRT.predicted) == map[5000 := DIRT];
    assert Merged(slots, map[5000 := DIRT], slots);
    st' := ExactClick(Player(slots, Cursor(DIRT, true)), PLACE_DIRT, slots);
    assert map[0 := slots][0 := slots] == map[0 := slots];
  }

  /** Placing into a full menu: the stack leaves the cursor and no slot takes it. */
  lemma FullMenuLosesStack(reg: Registry) returns (trace: seq<State>, ops: seq<Op>, slots: Slots)
    ensures |trace| == |ops| + 1 && |ops| > 0 && Run(trace, ops) && trace[0] == START
    ensures trace[|ops| - 1].view == View(map[0 := slots], Cursor(DIRT, true))
    ensures ops[|ops| - 1] == ClickOp(PlanOf(PROTOCOL_47, reg, slots, Cursor(DIRT, true), PLACE), 7, 0)
    ensures trace[|ops|].view == View(map[0 := slots], Cursor(None, false))
  {
    slots := Cobbled(MAX_SLOTS);
    trace, ops := FullReached(slots, Cursor(DIRT, true));
    PlaceIsPlanned(reg, slots);
    var st' := PlaceRefused(slots);
    RunMore(trace, ops, Player(slots, Cursor(DIRT, true)), PLACE_DIRT, st');
    trace, ops := trace + [st'], ops + [PLACE_DIRT];
  }

  // ----- A craft without room for its result -----

  const WANTS: seq<Ingredient> := [Ingredient(4, -1), Ingredient(4, -1), Ingredient(4, -1), Ingredient(4, -1)]

  /** The one recipe: four pieces of cobblestone, in any order, make a furnace-like block. */
  const ONE_RECIPE: Registry := map[61 := [Recipe(Result(61, 0, 1), [], WANTS)]]

  const PLAYER_GRID := Layout(0, [1, 2, 3, 4], 2, 2)

  /** Any 2x2 grid with cobblestone in every cell makes the recipe. */
  lemma CobbleCrafts(g: Grid)
    requires g.Valid() && g.width == 2 && g.height == 2
    requires forall i :: 0 <= i < 4 ==> g.cells[i].id == 4 && g.cells[i].count > 0
    ensures Made(ONE_RECIPE, SATISFIES, g).Some?
  {
    var at := [(0, 0), (1, 0), (0, 1), (1, 1)];
    assert Pairing(g, WANTS, SATISFIES, at) by {
      FourCells(g);
    }
    assert Crafts(g, ONE_RECIPE[61][0], SATISFIES);
    assert Occupied(g, EMPTY_CELL, (0, 0)) by {
      FourCells(g);
    }
    assert First(ONE_RECIPE, SATISFIES, g, 61, 0);
  }

  lemma FourCells(g: Grid)
    requires g.Valid() && g.width == 2 && g.height == 2
    requires forall i :: 0 <= i < 4 ==> g.cells[i].id == 4 && g.cells[i].count > 0
    ensures Holds(g, 0, 0) == Some(g.cells[0]) && Holds(g, 1, 0) == Some(g.cells[1])
    ensures Holds(g, 0, 1) == Some(g.cells[2]) && Holds(g, 1, 1) == Some(g.cells[3])
  {
  }

  /** A full menu that describes the crafting grid and not the result slot. */
  ghost predicate GridOnly(layout: Layout, slots: Slots) {
    && GoodLayout(layout) && Full(slots) && layout.result !in slots
    && forall i :: 0 <= i < |layout.grid| ==> layout.grid[i] in slots
  }

  /** The grid makes something, and so does what one craft leaves of it. */
  ghost predicate Refills(reg: Registry, layout: Layout, slots: Slots)
    requires GoodLayout(layout)
  {
    var grid := GridOf(GridStacks(slots, layout));
    Made(reg, SATISFIES, grid).Some? && Made(reg, SATISFIES, Crafting.Lighter(grid)).Some?
  }

  lemma PairsInGrid(slots: Slots) returns (grid: Grid)
    requires forall s :: 1 <= s <= 4 ==> s in slots && slots[s] == PAIR
    ensures grid == GridOf(GridStacks(slots, PLAYER_GRID))
    ensures grid.Valid() && grid.width == grid.height == 2
    ensures forall i :: 0 <= i < 4 ==> grid.cells[i] == Cell(4, 0, 2)
  {
    grid := GridOf(GridStacks(slots, PLAYER_GRID));
  }

  lemma PairsRefill(slots: Slots)
    requires forall s :: 1 <= s <= 4 ==> s in slots && slots[s] == PAIR
    ensures GoodLayout(PLAYER_GRID) && Refills(ONE_RECIPE, PLAYER_GRID, slots)
  {
    var grid := PairsInGrid(slots);
    CobbleCrafts(grid);
    CobbleCrafts(Crafting.Lighter(grid));
  }

  lemma PlayerGridOnly(slots: Slots)
    requires Full(slots) && forall s :: s in slots <==> 1 <= s <= MAX_SLOTS
    ensures GridOnly(PLAYER_GRID, slots)
  {
  }

  /** There are such menus. */
  lemma CobbleRefills() returns (slots: Slots)
    ensures GridOnly(PLAYER_GRID, slots) && Refills(ONE_RECIPE, PLAYER_GRID, slots)
  {
    slots := Cobbled(MAX_SLOTS);
    PlayerGridOnly(slots);
    PairsRefill(slots);
  }

  lemma NoRoomForResult(layout: Layout, slots: Slots)
    requires GridOnly(layout, slots)
    ensures !Fits(layout, slots) && SlotsOf(layout) <= slots.Keys + {layout.result}
  {
    assert layout.result in SlotsOf(layout);
    SubsetSmaller(slots.Keys + {layout.result}, slots.Keys + SlotsOf(layout));
  }

  lemma SubsetSmaller(some: set<int>, all: set<int>)
    requires some <= all
    ensures |some| <= |all|
  {
    assert |all - some| == |all| - |some|;
  }

  /** What the store makes of a prediction that names an undescribed slot of a full menu: all but that is merged. */
  lemma MergedButOne(slots: Slots, items: Slots, extra: int) returns (now: Slots)
    requires Full(slots) && extra !in slots && items.Keys <= slots.Keys + {extra}
    ensures Merged(slots, items, now) && now.Keys == slots.Keys
  {
    now := map s | s in slots :: if s in items then items[s] else slots[s];
    assert now.Keys == slots.Keys;
  }

  lemma PredictsOneTooMany(reg: Registry, layout: Layout, slots: Slots)
    requires GridOnly(layout, slots) && Refills(reg, layout, slots)
    ensures var items := ItemsOf(ResultPlan(reg, layout, slots).predicted);
            layout.result in items && items.Keys <= slots.Keys + {layout.result}
  {
    NoRoomForResult(layout, slots);
    ResultItems(reg, layout, slots);
  }

  lemma RefillRefused(reg: Registry, layout: Layout, slots: Slots) returns (st': State)
    requires GridOnly(layout, slots) && Refills(reg, layout, slots)
    ensures Step(Player(slots, Cursor(None, false)), ClickOp(ResultPlan(reg, layout, slots), 7, 0), st')
    ensures 0 in st'.view.menus && layout.result !in st'.view.menus[0]
  {
    PredictsOneTooMany(reg, layout, slots);
    var now := MergedButOne(slots, ItemsOf(ResultPlan(reg, layout, slots).predicted), layout.result);
    st' := ExactClick(Player(slots, Cursor(None, false)), ClickOp(ResultPlan(reg, layout, slots), 7, 0), now);
  }

  lemma RefusedIsNotCrafted(reg: Registry, layout: Layout, slots: Slots, st: State, st': State)
    requires GridOnly(layout, slots) && Refills(reg, layout, slots) && st == Player(slots, Cursor(None, false))
    requires Step(st, ClickOp(ResultPlan(reg, layout, slots), 7, 0), st')
    ensures 0 in st'.view.menus && !Crafted(reg, layout, slots, st'.view.menus[0], st'.view.cursor)
  {
    NoRoomForResult(layout, slots);
    ResultClickCraftsIff(reg, layout, st, st', 0, 7);
  }

  /**
   * Crafting with the grid described and the result slot not: the result is taken and the grid is lighter, but the
   * refill the lighter grid makes finds no room, so the click is not a craft in full.
   */
  lemma FullMenuHidesRefill(reg: Registry, layout: Layout, slots: Slots) returns (trace: seq<State>, ops: seq<Op>)
    requires GridOnly(layout, slots) && Refills(reg, layout, slots)
    ensures |trace| == |ops| + 1 && |ops| > 0 && Run(trace, ops) && trace[0] == START
    ensures trace[|ops| - 1].view == View(map[0 := slots], Cursor(None, false)) && 0 in trace[|ops|].view.menus
    ensures ops[|ops| - 1] == ClickOp(ResultPlan(reg, layout, slots), 7, 0)
    ensures layout.result !in trace[|ops|].view.menus[0]
    ensures !Crafted(reg, layout, slots, trace[|ops|].view.menus[0], trace[|ops|].view.cursor)
  {
    trace, ops := FullReached(slots, Cursor(None, false));
    var op := ClickOp(ResultPlan(reg, layout, slots), 7, 0);
    var st' := RefillRefused(reg, layout, slots);
    RefusedIsNotCrafted(reg, layout, slots, Player(slots, Cursor(None, false)), st');
    RunMore(trace, ops, Player(slots, Cursor(None, false)), op, st');
    trace, ops := trace + [st'], ops + [op];
  }

  // ----- A sequence used twice -----

  /** Putting the cobblestone back under the sequence it was picked up with. */
  const PUT_BACK := Click(7, 1, [0], [SlotSnapshot(0, COBBLE, true, true)], Some(Cursor(None, false)))

  /** Taking the second click back, unsent, takes the first back with it. */
  lemma RepeatedSequenceUndoesBoth() returns (trace: seq<State>, ops: seq<Op>, st: State, mid: State)
    ensures ReachedBy(trace, ops, mid) && |ops| > 0 && trace[|ops| - 1] == st && ops[|ops| - 1] == PUT_BACK
    ensures |st.pending| == 1 && RejectStep(mid, 7).pending == []
    ensures st.view.cursor == Cursor(COBBLE, true) && RejectStep(mid, 7).view.cursor == Cursor(None, false)
  {
    trace, ops := PickedInRun();
    st := Menu1(Some(None), Cursor(COBBLE, true), true, [PICKED]);
    var p := TakeSnapshot(st.view, 7, 1, [0]);
    mid := Menu1(Some(COBBLE), Cursor(None, false), true, [PICKED, p]);
    assert PUT_BACK.predicted[..0] == [];
    assert ItemsOf(PUT_BACK.predicted) == map[0 := COBBLE];
    OneSlotMerged(st.view.menus[1], COBBLE);
    var now: Slots := map[0 := COBBLE];
    assert now.Keys - now.Keys == {};
    assert [PICKED] + [p] == [PICKED, p];
    assert Step(st, PUT_BACK, mid);
    RunMore(trace, ops, st, PUT_BACK, mid);
    trace, ops := trace + [mid], ops + [PUT_BACK];
    var ps := mid.pending;
    assert ps[0..] == ps && ps[..0] == [] && ps[..1] == [PICKED];
    RewindMore(mid.view, [PICKED], p);
    RewindOne(Restore(mid.view, p), PICKED);
  }
}
