/** What the press of a mouse button on a slot comes to, from the press itself to the menu: client/window.go. */
module Presses {
  import opened Options
  import opened Items
  import opened Grids
  import opened Recipes
  import opened CraftPrediction
  import opened ClickLog
  import opened ClickRuns
  import opened ServerRuns
  import opened ClickPlans

  /** Left-clicking with nothing in hand on slot 0 of a crafting table or of the player's own menu takes the result. */
  lemma CraftClickIff(adapter: Adapter, press: Press, cursor: Cursor)
    ensures CraftClick(adapter, press, InHand(adapter, cursor).None?).Some? <==> TakesResult(adapter, press, cursor)
  {
  }

  /** What the server is told the click found: what the slot shows, or what the grid makes when that is taken. */
  lemma ClaimIs(adapter: Adapter, reg: Registry, slots: Slots, cursor: Cursor, press: Press)
    ensures var claim := PlanOf(adapter, reg, slots, cursor, press).claim;
            if Plain(adapter, press) && TakesResult(adapter, press, cursor) then
              var made := Made(reg, SATISFIES, GridOf(GridStacks(slots, TableOrPlayer(press))));
              claim == if made.Some? then Some(ResultStack(made.value.result)) else None
            else claim == if press.slot in slots then slots[press.slot] else None
  {
  }

  /** Every prediction says what it knows: the stack it holds, or that it holds none. */
  lemma PredictionsAreKnown(adapter: Adapter, reg: Registry, slots: Slots, cursor: Cursor, press: Press, i: nat)
    requires i < |PlanOf(adapter, reg, slots, cursor, press).predicted|
    ensures var only := PlanOf(adapter, reg, slots, cursor, press).predicted[i];
            only.known && (only.held <==> only.item.Some?)
  {
  }

  /** Protocol 47 crafts, refuses what it cannot predict, and spells an absent stack with a negative block. */
  lemma Protocol47(item: Item)
    ensures PROTOCOL_47.stacks && PROTOCOL_47.crafts && PROTOCOL_47.protocol47
    ensures PROTOCOL_47.empty(item) <==> match item
                                         case Stack(block, _, _, _) => block < 0
                                         case Foreign(_) => false
  {
  }

  /** Slots 1 to 9 of a crafting table, or 1 to 4 of the player's own menu, row by row. */
  function TableOrPlayer(press: Press): (layout: Layout)
    ensures GoodLayout(layout)
  {
    if press.menuType == "minecraft:crafting_table" then Layout(0, [1, 2, 3, 4, 5, 6, 7, 8, 9], 3, 3)
    else Layout(0, [1, 2, 3, 4], 2, 2)
  }

  lemma TakesFromLayout(adapter: Adapter, press: Press, cursor: Cursor)
    requires TakesResult(adapter, press, cursor)
    ensures CraftClick(adapter, press, InHand(adapter, cursor).None?) == Some(TableOrPlayer(press))
  {
  }

  /** The click is remembered under its sequence, for its window. */
  ghost predicate Remembered(st: State, sequence: int, window: int, st': State) {
    |st'.pending| == |st.pending| + 1 && st'.pending[..|st.pending|] == st.pending
    && st'.pending[|st.pending|].sequence == sequence && st'.pending[|st.pending|].window == window
  }

  lemma RememberedStep(st: State, plan: Plan, sequence: int, window: int, st': State)
    requires WellFormed(st) && |st.pending| < 256 && Step(st, ClickOp(plan, sequence, window), st')
    ensures Remembered(st, sequence, window, st')
  {
    ClickQueues(st, ClickOp(plan, sequence, window), st');
  }

  /**
   * Taking the result: the click is predicted, and in the menu comes to exactly one craft if and only if the grid
   * makes nothing or its slots and the result's are described or find room.
   */
  lemma TakingCrafts(adapter: Adapter, reg: Registry, press: Press, sequence: int, st: State, st': State)
    requires WellFormed(st) && press.window in st.view.menus && |st.pending| < 256
    requires Plain(adapter, press) && TakesResult(adapter, press, st.view.cursor)
    requires var plan := PlanOf(adapter, reg, st.view.menus[press.window], st.view.cursor, press);
             Step(st, ClickOp(plan, sequence, press.window), st')
    ensures press.window in st'.view.menus && Remembered(st, sequence, press.window, st')
    ensures var layout, slots := TableOrPlayer(press), st.view.menus[press.window];
            Crafted(reg, layout, slots, st'.view.menus[press.window], st'.view.cursor) <==>
            Made(reg, SATISFIES, GridOf(GridStacks(slots, layout))).None? || Fits(layout, slots)
  {
    TakesFromLayout(adapter, press, st.view.cursor);
    var plan := PlanOf(adapter, reg, st.view.menus[press.window], st.view.cursor, press);
    RememberedStep(st, plan, sequence, press.window, st');
    ResultClickCraftsIff(reg, TableOrPlayer(press), st, st', press.window, sequence);
  }

  /** Room for a craft is room for 1024 slots. */
  lemma FitsIff(layout: Layout, slots: Slots)
    ensures Fits(layout, slots) <==>
            var all := slots.Keys + {layout.result} + (set s | s in layout.grid); all == slots.Keys || |all| <= 1024
  {
    assert slots.Keys + SlotsOf(layout) == slots.Keys + {layout.result} + (set s | s in layout.grid);
  }

  /**
   * Any other plain click with at most one side occupied: a stack in the slot is picked up; a stack in hand is put
   * down, into a slot described already or found room for, and else lost; with neither, nothing moves.
   */
  lemma ClickingExchanges(adapter: Adapter, reg: Registry, press: Press, sequence: int, st: State, st': State)
    requires WellFormed(st) && press.window in st.view.menus && |st.pending| < 256
    requires Plain(adapter, press) && !TakesResult(adapter, press, st.view.cursor)
    requires var plan := PlanOf(adapter, reg, st.view.menus[press.window], st.view.cursor, press);
             Step(st, ClickOp(plan, sequence, press.window), st')
    requires HandBare(adapter, st.view.cursor) || SlotBare(adapter, st.view.menus[press.window], press.slot)
    ensures Remembered(st, sequence, press.window, st')
    ensures var slots, cursor, slot := st.view.menus[press.window], st.view.cursor, press.slot;
            var (slots', cursor') :=
              if !SlotBare(adapter, slots, slot) then (slots[slot := None], Cursor(slots[slot], true))
              else if !HandBare(adapter, cursor) then
                (if slot in slots || |slots| < 1024 then slots[slot := cursor.item] else slots, Cursor(None, false))
              else (slots, Cursor(None, false));
            st'.view == View(st.view.menus[press.window := slots'], cursor')
  {
    CraftClickIff(adapter, press, st.view.cursor);
    var slots := st.view.menus[press.window];
    var plan := PlanOf(adapter, reg, slots, st.view.cursor, press);
    RememberedStep(st, plan, sequence, press.window, st');
    PlanTakesEffect(st, plan, sequence, press.window, st');
    if plan.predicted != [] {
      SingleItem(plan.predicted);
      var item := if plan.predicted[0].held then plan.predicted[0].item else None;
      MergedOne(slots, press.slot, item, st'.view.menus[press.window]);
    }
  }

  lemma MergedOne(slots: Slots, slot: int, item: Content, slots': Slots)
    requires Merged(slots, map[slot := item], slots')
    ensures slots' == if slot in slots || |slots| < 1024 then slots[slot := item] else slots
  {
    MergedSingle(slots, slot, item, slots');
    LookExtensional(slots', if slot in slots || |slots| < 1024 then slots[slot := item] else slots);
  }

  // ----- A craft in words -----

  /** One of a stack of several is used up, and the last of a stack; what is no stack of an item is nothing. */
  lemma OneIsUsed(stack: Content)
    ensures OneFewer(stack) == match stack
                               case Some(Stack(block, count, damage, nbt)) =>
                                 if block > 0 && count > 1 then Some(Stack(block, count - 1, damage, nbt)) else None
                               case _ => None
  {
  }

  /** The made result as the wire's narrow integers have it, with no further data. */
  lemma ResultAsStack(result: Result)
    ensures var item := ResultStack(result);
            && item.Stack? && item.nbt == 0
            && (item.block - result.id) % 0x1_0000 == 0 && (item.damage - result.metadata) % 0x1_0000 == 0
            && (item.count - result.count) % 0x100 == 0
  {
  }

  /** Row y, column x of a grid is the stack at place y * width + x: its item, its variant and how many there are. */
  lemma GridShows(stacks: seq<Content>, width: nat, x: int, y: int)
    requires |stacks| == width * width && (width == 2 || width == 3) && 0 <= x < width && 0 <= y < width
    ensures 0 <= y * width + x < |stacks|
    ensures Holds(GridOf(stacks), x, y) ==
            match stacks[y * width + x]
            case Some(Stack(block, count, damage, _)) =>
              if block > 0 && count > 0 then Some(Cell(block, damage, count)) else None
            case _ => None
  {
    InRow(x, y, width, width);
  }

  /** An item satisfies what wants that item, in that variant or, where -1 is wanted, in any. */
  lemma SatisfiesIff(id: int, metadata: int, count: int, want: Ingredient)
    requires id != 0 && count > 0
    ensures SATISFIES(Cell(id, metadata, count), want) <==>
            want == Ingredient(id, metadata) || want == Ingredient(id, -1)
  {
  }

  /** Every item of a grid is used up by one, and the result slot shows what that grid makes next. */
  lemma LighterShows(g: Grid, x: int, y: int)
    requires g.Valid()
    ensures Holds(Crafting.Lighter(g), x, y) ==
            match Holds(g, x, y)
            case Some(Cell(id, metadata, count)) => if count > 1 then Some(Cell(id, metadata, count - 1)) else None
            case None => None
  {
    if 0 <= x < g.width && 0 <= y < g.height {
      InRow(x, y, g.width, g.height);
    }
  }
}
