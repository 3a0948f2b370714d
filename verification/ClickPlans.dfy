/** What one click commits to before it is sent, and sending it: client/window.go. */
module ClickPlans {
  import opened Options
  import opened Items
  import opened Recipes
  import opened CraftPrediction
  import opened ClickLog
  import opened ClickRuns
  import opened ServerRuns
  import opened ContainerStore

  datatype Mode = ModePickup | ModeOther

  /**
   * What the version's adapter can answer: which stacks that are there hold nothing, and what a grid crafts.
   * `stacks` and `crafts` say whether it answers at all.
   */
  datatype Adapter = Adapter(stacks: bool, empty: Item -> bool, crafts: bool, protocol47: bool)

  /** Protocol 47 decodes an absent stack as a stack with a negative block ID. */
  const PROTOCOL_47 := Adapter(true, (item: Item) => item.Stack? && item.block < 0, true, true)

  /** The arguments of a click, and the type of the menu it was seen in. */
  datatype Press = Press(menuType: string, window: int, slot: int, button: int, mode: Mode)

  datatype Plan = Plan(
    claim: Content, predicted: seq<SlotSnapshot>, cursor: SlotSnapshot, snapshotSlots: seq<int>, exact: bool)

  const NO_SLOT := SlotSnapshot(0, None, false, false)

  predicate StackEmpty(adapter: Adapter, stack: Content) {
    stack.None? || adapter.empty(stack.value)
  }

  /** What a slot shows, an undescribed one showing nothing. */
  function Shown(slots: Slots, slot: int): Content {
    if slot in slots then slots[slot] else None
  }

  function GridStacks(slots: Slots, layout: Layout): seq<Content> {
    seq(|layout.grid|, i requires 0 <= i < |layout.grid| => Shown(slots, layout.grid[i]))
  }

  /** A pickup from the result slot: the craft, the grid one item lighter, and the result that refills the slot. */
  method PlanResultClick(reg: Registry, layout: Layout, slots: Slots) returns (plan: Plan)
    requires |layout.grid| == 4 || |layout.grid| == 9
    ensures plan == ResultPlan(reg, layout, slots)
  {
    var stacks: seq<Content> := [];
    for i := 0 to |layout.grid|
      invariant stacks == GridStacks(slots, layout)[..i]
    {
      stacks := stacks + [Shown(slots, layout.grid[i])];
    }
    assert stacks == GridStacks(slots, layout);
    var snapshotSlots := [layout.result] + layout.grid;
    var craft := PredictCraft(reg, stacks);
    if craft.None? {
      return Plan(None, [], NO_SLOT, snapshotSlots, true);
    }
    var remaining := craft.value.remaining;
    var predicted: seq<SlotSnapshot> := [];
    for at := 0 to |remaining|
      invariant predicted == LighterSlots(layout, remaining)[..at]
    {
      predicted := predicted + [SlotSnapshot(layout.grid[at], remaining[at], remaining[at].Some?, true)];
    }
    assert predicted == LighterSlots(layout, remaining);
    var next := PredictCraft(reg, remaining);
    var refill := if next.Some? then Some(next.value.result) else None;
    predicted := predicted + [SlotSnapshot(layout.result, refill, next.Some?, true)];
    plan := Plan(Some(craft.value.result), predicted,
                 SlotSnapshot(0, Some(craft.value.result), true, false), snapshotSlots, true);
  }

  function LighterSlots(layout: Layout, remaining: seq<Content>): seq<SlotSnapshot>
    requires |remaining| == |layout.grid|
  {
    seq(|remaining|, i requires 0 <= i < |remaining| =>
      SlotSnapshot(layout.grid[i], remaining[i], remaining[i].Some?, true))
  }

  ghost function ResultPlan(reg: Registry, layout: Layout, slots: Slots): Plan
    requires |layout.grid| == 4 || |layout.grid| == 9
  {
    var snapshotSlots := [layout.result] + layout.grid;
    var craft := Predicted(reg, GridStacks(slots, layout));
    if craft.None? then Plan(None, [], NO_SLOT, snapshotSlots, true)
    else
      var next := Predicted(reg, craft.value.remaining);
      var refill := if next.Some? then Some(next.value.result) else None;
      Plan(Some(craft.value.result),
           LighterSlots(layout, craft.value.remaining) + [SlotSnapshot(layout.result, refill, next.Some?, true)],
           SlotSnapshot(0, Some(craft.value.result), true, false), snapshotSlots, true)
  }

  /** The crafting layout a click takes from, if it is one: an empty cursor on a crafting menu's result slot. */
  function CraftClick(adapter: Adapter, press: Press, cursorEmpty: bool): Option<Layout> {
    var layout := CraftingLayout(press.menuType, press.window);
    if adapter.crafts && cursorEmpty && layout.Some? && layout.value.result == press.slot then layout else None
  }

  /** Nothing is in hand. */
  predicate HandBare(adapter: Adapter, cursor: Cursor) {
    cursor.held && cursor.item.Some? ==> adapter.empty(cursor.item.value)
  }

  /** The slot shows nothing. */
  predicate SlotBare(adapter: Adapter, slots: Slots, slot: int) {
    slot in slots && slots[slot].Some? ==> adapter.empty(slots[slot].value)
  }

  /** A plain left click, and an adapter that can tell which stacks are none. */
  predicate Plain(adapter: Adapter, press: Press) {
    press.mode == ModePickup && press.button == 0 && adapter.stacks
  }

  /** The press, left or not, is one on the result slot of a menu that crafts, by an empty hand. */
  predicate TakesResult(adapter: Adapter, press: Press, cursor: Cursor) {
    && adapter.crafts && HandBare(adapter, cursor)
    && press.slot == 0 && (press.menuType == "minecraft:crafting_table" || press.window == 0)
  }

  method PlanClick(adapter: Adapter, reg: Registry, slots: Slots, cursor: Cursor, press: Press) returns (plan: Plan)
    ensures plan == PlanOf(adapter, reg, slots, cursor, press)
  {
    var slot, claim := press.slot, Shown(slots, press.slot);
    var inexact := Plan(claim, [], NO_SLOT, [slot], false);
    if press.mode != ModePickup || press.button != 0 || !adapter.stacks {
      return inexact;
    }
    var cursorEmpty := !cursor.held || StackEmpty(adapter, cursor.item);
    var layout := CraftClick(adapter, press, cursorEmpty);
    if layout.Some? {
      plan := PlanResultClick(reg, layout.value, slots);
      return;
    }
    var slotEmpty := StackEmpty(adapter, claim);
    if cursorEmpty && !slotEmpty {
      return Plan(claim, [SlotSnapshot(slot, None, false, true)], SlotSnapshot(0, claim, true, false), [slot], true);
    }
    if !cursorEmpty && slotEmpty {
      return Plan(claim, [SlotSnapshot(slot, cursor.item, true, true)], NO_SLOT, [slot], true);
    }
    if cursorEmpty && slotEmpty {
      return Plan(claim, [], NO_SLOT, [slot], true);
    }
    return inexact;
  }

  ghost function PlanOf(adapter: Adapter, reg: Registry, slots: Slots, cursor: Cursor, press: Press): Plan {
    var slot, claim := press.slot, Shown(slots, press.slot);
    var inexact := Plan(claim, [], NO_SLOT, [slot], false);
    var hand := InHand(adapter, cursor);
    var layout := CraftClick(adapter, press, hand.None?);
    if press.mode != ModePickup || press.button != 0 || !adapter.stacks then inexact
    else if layout.Some? then ResultPlan(reg, layout.value, slots)
    else if hand.Some? && Stuff(adapter, claim).Some? then inexact
    else
      var put := if hand.Some? then [SlotSnapshot(slot, hand, true, true)] else [];
      var taken := if Stuff(adapter, claim).Some? then [SlotSnapshot(slot, None, false, true)] else [];
      Plan(claim, put + taken, if taken != [] then SlotSnapshot(0, claim, true, false) else NO_SLOT, [slot], true)
  }

  function ClickOp(plan: Plan, sequence: int, window: int): Op {
    Click(sequence, window, plan.snapshotSlots, plan.predicted,
          if plan.exact then Some(Cursor(plan.cursor.item, plan.cursor.held)) else None)
  }

  /** Every plan's snapshot covers what the plan predicts, so every click it makes can be rolled back. */
  lemma PlanCovers(
    adapter: Adapter, reg: Registry, slots: Slots, cursor: Cursor, press: Press, sequence: int, window: int)
    ensures Covers(ClickOp(PlanOf(adapter, reg, slots, cursor, press), sequence, window))
  {
    var plan := PlanOf(adapter, reg, slots, cursor, press);
    var layout := CraftClick(adapter, press, InHand(adapter, cursor).None?);
    forall i | 0 <= i < |plan.predicted|
      ensures plan.predicted[i].slot in plan.snapshotSlots
    {
      if layout.Some? && plan.snapshotSlots == [layout.value.result] + layout.value.grid {
        if i < |layout.value.grid| {
          assert plan.snapshotSlots[i + 1] == layout.value.grid[i];
        }
      }
    }
  }

  /** A plan is exact if and only if the click is a plain one with at most one side occupied. */
  lemma ExactIff(adapter: Adapter, reg: Registry, slots: Slots, cursor: Cursor, press: Press)
    ensures PlanOf(adapter, reg, slots, cursor, press).exact <==>
            Plain(adapter, press) && (HandBare(adapter, cursor) || SlotBare(adapter, slots, press.slot))
  {
  }

  // ----- What an exact click does to the store -----

  /** A content up to emptiness: the several ways of holding nothing are one. */
  function Stuff(adapter: Adapter, c: Content): Content {
    if StackEmpty(adapter, c) then None else c
  }

  /** What the cursor holds, up to emptiness. */
  function InHand(adapter: Adapter, c: Cursor): Content {
    if c.held then Stuff(adapter, c.item) else None
  }

  ghost predicate Room(slots: Slots, slot: int) {
    slot in slots || |slots| < MAX_SLOTS
  }

  lemma SingleItem(predicted: seq<SlotSnapshot>)
    requires |predicted| == 1
    ensures ItemsOf(predicted) == map[predicted[0].slot := if predicted[0].held then predicted[0].item else None]
  {
    assert predicted[..0] == [];
  }

  /** An exact plan put into effect: its predictions merged into the one window, and its cursor. */
  ghost predicate Effect(view: View, plan: Plan, window: int, view': View)
    requires window in view.menus
  {
    && window in view'.menus
    && view' == View(view.menus[window := view'.menus[window]], CursorOf(plan.cursor.item, plan.cursor.held))
    && if ItemsOf(plan.predicted) == map[] then view'.menus[window] == view.menus[window]
       else Merged(view.menus[window], ItemsOf(plan.predicted), view'.menus[window])
  }

  lemma PlanTakesEffect(st: State, plan: Plan, sequence: int, window: int, st': State)
    requires WellFormed(st) && window in st.view.menus && |st.pending| < MAX_PENDING
    requires plan.exact && Step(st, ClickOp(plan, sequence, window), st')
    ensures Effect(st.view, plan, window, st'.view)
  {
    var p := TakeSnapshot(st.view, sequence, window, plan.snapshotSlots);
    var recorded := st'.(view := st'.view.(cursor := st.view.cursor), cursorSent := st.cursorSent);
    PredictionTouches(st, p, plan.predicted, recorded);
  }

  lemma SmallPlanEffect(view: View, plan: Plan, window: int, view': View)
    requires window in view.menus && |plan.predicted| <= 1 && Effect(view, plan, window, view')
    ensures var slots, slots' := view.menus[window], view'.menus[window];
            if plan.predicted == [] then slots' == slots
            else
              var only := plan.predicted[0];
              && (forall s :: s != only.slot ==> Look(slots', s) == Look(slots, s))
              && Look(slots', only.slot) ==
                 if Room(slots, only.slot) then Some(if only.held then only.item else None) else None
  {
    if plan.predicted != [] {
      var only := plan.predicted[0];
      SingleItem(plan.predicted);
      MergedSingle(view.menus[window], only.slot, if only.held then only.item else None, view'.menus[window]);
    }
  }

  /**
   * What an exact click outside a result slot leaves, planned from any view of the menu, however stale: the cursor
   * holds what the slot was seen to show; the slot holds what the cursor was seen to hold, if there is room for it,
   * and keeps its content if both were seen empty; nothing else changes.
   */
  lemma OrdinaryClickLeaves(
    adapter: Adapter, reg: Registry, seen: View, press: Press, sequence: int, st: State, st': State)
    requires WellFormed(st) && press.window in seen.menus && press.window in st.view.menus
    requires |st.pending| < MAX_PENDING && !TakesResult(adapter, press, seen.cursor)
    requires var plan := PlanOf(adapter, reg, seen.menus[press.window], seen.cursor, press);
             plan.exact && Step(st, ClickOp(plan, sequence, press.window), st')
    ensures press.window in st'.view.menus
    ensures var shown := Stuff(adapter, Shown(seen.menus[press.window], press.slot));
            var slots, slots' := st.view.menus[press.window], st'.view.menus[press.window];
            && (forall s :: s != press.slot ==> Look(slots', s) == Look(slots, s))
            && (forall w :: w != press.window ==> SameMenu(st.view, st'.view, w))
            && InHand(adapter, st'.view.cursor) == shown
            && Stuff(adapter, Shown(slots', press.slot)) ==
               if shown.None? && InHand(adapter, seen.cursor).None? then Stuff(adapter, Shown(slots, press.slot))
               else if Room(slots, press.slot) then InHand(adapter, seen.cursor) else None
  {
    var slots := seen.menus[press.window];
    var plan := PlanOf(adapter, reg, slots, seen.cursor, press);
    OrdinaryPlan(adapter, reg, slots, seen.cursor, press);
    PlanTakesEffect(st, plan, sequence, press.window, st');
    OrdinaryEffect(adapter, Shown(slots, press.slot), InHand(adapter, seen.cursor), press.slot, st.view, plan,
                   press.window, st'.view);
  }

  /** The plan moves what is in hand into the slot, or what the slot shows into the hand, or nothing. */
  ghost predicate Moves(adapter: Adapter, shown: Content, hand: Content, slot: int, plan: Plan) {
    && plan.predicted == (if hand.Some? then [SlotSnapshot(slot, hand, true, true)]
                          else if Stuff(adapter, shown).Some? then [SlotSnapshot(slot, None, false, true)] else [])
    && plan.cursor == (if Stuff(adapter, shown).Some? then SlotSnapshot(0, shown, true, false) else NO_SLOT)
  }

  lemma OrdinaryPlan(adapter: Adapter, reg: Registry, slots: Slots, cursor: Cursor, press: Press)
    requires !TakesResult(adapter, press, cursor) && PlanOf(adapter, reg, slots, cursor, press).exact
    ensures Moves(adapter, Shown(slots, press.slot), InHand(adapter, cursor), press.slot,
                  PlanOf(adapter, reg, slots, cursor, press))
    ensures InHand(adapter, cursor) == Stuff(adapter, InHand(adapter, cursor))
    ensures InHand(adapter, cursor).None? || Stuff(adapter, Shown(slots, press.slot)).None?
  {
  }

  lemma OrdinaryEffect(adapter: Adapter, shown: Content, hand: Content, slot: int, view: View, plan: Plan, window: int,
                       view': View)
    requires window in view.menus && Effect(view, plan, window, view') && Moves(adapter, shown, hand, slot, plan)
    requires hand == Stuff(adapter, hand) && (hand.None? || Stuff(adapter, shown).None?)
    ensures var slots, slots' := view.menus[window], view'.menus[window];
            && (forall s :: s != slot ==> Look(slots', s) == Look(slots, s))
            && (forall w :: w != window ==> SameMenu(view, view', w))
            && InHand(adapter, view'.cursor) == Stuff(adapter, shown)
            && Stuff(adapter, Shown(slots', slot)) ==
               if Stuff(adapter, shown).None? && hand.None? then Stuff(adapter, Shown(slots, slot))
               else if Room(slots, slot) then hand else None
  {
    SmallPlanEffect(view, plan, window, view');
    LookShown(view'.menus[window], slot);
    LookShown(view.menus[window], slot);
  }

  /**
   * Planned from the menu as it is, such a click exchanges what the slot and the cursor hold and touches nothing
   * else - if and only if the slot was already described, the menu has room to describe it, or there was nothing to
   * put down. In a full menu the store refuses the prediction and the stack leaves the cursor for nowhere.
   */
  lemma OrdinaryClickExchangesIff(
    adapter: Adapter, reg: Registry, press: Press, sequence: int, st: State, st': State)
    requires WellFormed(st) && press.window in st.view.menus && |st.pending| < MAX_PENDING
    requires !TakesResult(adapter, press, st.view.cursor)
    requires var plan := PlanOf(adapter, reg, st.view.menus[press.window], st.view.cursor, press);
             plan.exact && Step(st, ClickOp(plan, sequence, press.window), st')
    ensures press.window in st'.view.menus
    ensures var slots, slots' := st.view.menus[press.window], st'.view.menus[press.window];
            && (forall s :: s != press.slot ==> Look(slots', s) == Look(slots, s))
            && (forall w :: w != press.window ==> SameMenu(st.view, st'.view, w))
            && InHand(adapter, st'.view.cursor) == Stuff(adapter, Shown(slots, press.slot))
            && (Stuff(adapter, Shown(slots', press.slot)) == InHand(adapter, st.view.cursor) <==>
                Room(slots, press.slot) || InHand(adapter, st.view.cursor).None?)
  {
    OrdinaryClickLeaves(adapter, reg, st.view, press, sequence, st, st');
  }

  lemma LookShown(slots: Slots, slot: int)
    ensures Shown(slots, slot) == if Look(slots, slot).Some? then Look(slots, slot).value else None
  {
  }

  /** Merging one item: it lands exactly when its slot is described or the menu has room. */
  lemma MergedSingle(slots: Slots, slot: int, item: Content, slots': Slots)
    requires Merged(slots, map[slot := item], slots')
    ensures forall s :: s != slot ==> Look(slots', s) == Look(slots, s)
    ensures Look(slots', slot) == if Room(slots, slot) then Some(item) else None
  {
    var items: Slots := map[slot := item];
    assert items.Keys == {slot};
    MergedKeySingle(slots.Keys, slot, slots'.Keys);
    assert |slots.Keys| == |slots|;
  }

  lemma MergedKeySingle(keys: set<int>, slot: int, keys': set<int>)
    requires MergedKeys(keys, {slot}, keys')
    ensures keys' == if slot in keys || |keys| < MAX_SLOTS then keys + {slot} else keys
  {
    if slot in keys' {
      assert keys' == keys + {slot};
      if slot !in keys {
        assert |keys'| == |keys| + 1;
      }
    } else {
      assert keys' == keys;
    }
  }

  /** What a result plan that crafts something predicts, slot by slot. */
  lemma ResultItems(reg: Registry, layout: Layout, slots: Slots)
    requires GoodLayout(layout) && Predicted(reg, GridStacks(slots, layout)).Some?
    ensures var items := ItemsOf(ResultPlan(reg, layout, slots).predicted);
            var craft := Predicted(reg, GridStacks(slots, layout)).value;
            var next := Predicted(reg, craft.remaining);
            && |craft.remaining| == |layout.grid|
            && items.Keys == SlotsOf(layout)
            && items[layout.result] == (if next.Some? then Some(next.value.result) else None)
            && forall i :: 0 <= i < |layout.grid| ==>
                             layout.grid[i] in items && items[layout.grid[i]] == craft.remaining[i]
  {
    var remaining := Predicted(reg, GridStacks(slots, layout)).value.remaining;
    var predicted := ResultPlan(reg, layout, slots).predicted;
    assert predicted == LighterSlots(layout, remaining) + [predicted[|remaining|]];
    LayoutItems(layout, remaining, predicted[|remaining|]);
    forall i | 0 <= i < |layout.grid|
      ensures layout.grid[i] in SlotsOf(layout)
    {
    }
  }

  /** The slots after a result click that crafts something: the plan's predictions, nothing else. */
  lemma ResultClickSlots(reg: Registry, layout: Layout, view: View, view': View, window: int)
    requires GoodLayout(layout)
    requires window in view.menus && Fits(layout, view.menus[window])
    requires Effect(view, ResultPlan(reg, layout, view.menus[window]), window, view')
    requires Predicted(reg, GridStacks(view.menus[window], layout)).Some?
    ensures var slots, slots' := view.menus[window], view'.menus[window];
            var craft := Predicted(reg, GridStacks(slots, layout)).value;
            var next := Predicted(reg, craft.remaining);
            && (forall i :: 0 <= i < |layout.grid| ==> Look(slots', layout.grid[i]) == Some(craft.remaining[i]))
            && (forall s :: s !in layout.grid && s != layout.result ==> Look(slots', s) == Look(slots, s))
            && Look(slots', layout.result) == Some(if next.Some? then Some(next.value.result) else None)
  {
    var slots, slots' := view.menus[window], view'.menus[window];
    ResultItems(reg, layout, slots);
    MergedFits(slots, ItemsOf(ResultPlan(reg, layout, slots).predicted), slots');
  }

  ghost function SlotsOf(layout: Layout): set<int> {
    (set s | s in layout.grid) + {layout.result}
  }

  /** Every slot of the layout is described already, or the menu has room to describe those that are not. */
  ghost predicate Fits(layout: Layout, slots: Slots) {
    SlotsOf(layout) <= slots.Keys || |slots.Keys + SlotsOf(layout)| <= MAX_SLOTS
  }

  /**
   * What a result click comes to: the cursor gets what the grid makes, each grid slot is left with one item
   * fewer, and the result slot shows what the lighter grid makes. When the grid makes nothing, nothing changes.
   */
  ghost predicate Crafted(reg: Registry, layout: Layout, slots: Slots, slots': Slots, cursor': Cursor)
    requires |layout.grid| == 4 || |layout.grid| == 9
  {
    var grid := GridOf(GridStacks(slots, layout));
    var made := Made(reg, SATISFIES, grid);
    if made.None? then slots' == slots && cursor' == Cursor(None, false)
    else
      && cursor' == Cursor(Some(ResultStack(made.value.result)), true)
      && (forall i :: 0 <= i < |layout.grid| ==>
            Look(slots', layout.grid[i]) == Some(OneFewer(Shown(slots, layout.grid[i]))))
      && (forall s :: s !in layout.grid && s != layout.result ==> Look(slots', s) == Look(slots, s))
      && var next := Made(reg, SATISFIES, Crafting.Lighter(grid));
         Look(slots', layout.result) == Some(if next.Some? then Some(ResultStack(next.value.result)) else None)
  }

  lemma ResultPlanCrafts(reg: Registry, layout: Layout, view: View, view': View, window: int)
    requires GoodLayout(layout)
    requires window in view.menus && Fits(layout, view.menus[window])
    requires Effect(view, ResultPlan(reg, layout, view.menus[window]), window, view')
    ensures Crafted(reg, layout, view.menus[window], view'.menus[window], view'.cursor)
  {
    var stacks := GridStacks(view.menus[window], layout);
    if Predicted(reg, stacks).Some? {
      ResultClickSlots(reg, layout, view, view', window);
      NextResult(reg, stacks);
    }
  }

  /** A craft shown in full has found room for every slot of the layout. */
  lemma CraftedFits(reg: Registry, layout: Layout, view: View, view': View, window: int)
    requires GoodLayout(layout) && window in view.menus
    requires Effect(view, ResultPlan(reg, layout, view.menus[window]), window, view')
    requires Predicted(reg, GridStacks(view.menus[window], layout)).Some?
    requires Crafted(reg, layout, view.menus[window], view'.menus[window], view'.cursor)
    ensures Fits(layout, view.menus[window])
  {
    var slots, slots' := view.menus[window], view'.menus[window];
    ResultItems(reg, layout, slots);
    forall s | s in SlotsOf(layout)
      ensures s in slots'.Keys
    {
      if s != layout.result {
        var i :| 0 <= i < |layout.grid| && layout.grid[i] == s;
        assert Look(slots', layout.grid[i]).Some?;
      }
    }
    AllLanded(slots.Keys, SlotsOf(layout), slots'.Keys);
  }

  lemma AllLanded(keys: set<int>, items: set<int>, keys': set<int>)
    requires MergedKeys(keys, items, keys') && items <= keys'
    ensures items <= keys || |keys + items| <= MAX_SLOTS
  {
    assert keys' == keys + items;
  }

  ghost predicate GoodLayout(layout: Layout) {
    && (|layout.grid| == 4 || |layout.grid| == 9)
    && layout.result !in layout.grid
    && forall i, j :: 0 <= i < j < |layout.grid| ==> layout.grid[i] != layout.grid[j]
  }

  lemma LayoutsAreGood(menuType: string, window: int, layout: Layout)
    requires CraftingLayout(menuType, window) == Some(layout)
    ensures GoodLayout(layout)
  {
  }

  /**
   * A result click, as the store carries it out, is one craft if and only if the grid makes nothing or every slot
   * of the layout finds room in the menu.
   */
  lemma ResultClickCraftsIff(reg: Registry, layout: Layout, st: State, st': State, window: int, sequence: int)
    requires GoodLayout(layout)
    requires WellFormed(st) && window in st.view.menus && |st.pending| < MAX_PENDING
    requires Step(st, ClickOp(ResultPlan(reg, layout, st.view.menus[window]), sequence, window), st')
    ensures window in st'.view.menus
    ensures Crafted(reg, layout, st.view.menus[window], st'.view.menus[window], st'.view.cursor) <==>
            Made(reg, SATISFIES, GridOf(GridStacks(st.view.menus[window], layout))).None?
            || Fits(layout, st.view.menus[window])
  {
    var view, view' := st.view, st'.view;
    PlanTakesEffect(st, ResultPlan(reg, layout, view.menus[window]), sequence, window, st');
    if Predicted(reg, GridStacks(view.menus[window], layout)).Some? {
      if Fits(layout, view.menus[window]) {
        ResultPlanCrafts(reg, layout, view, view', window);
      } else if Crafted(reg, layout, view.menus[window], view'.menus[window], view'.cursor) {
        CraftedFits(reg, layout, view, view', window);
      }
    }
  }

  lemma MergedFits(slots: Slots, items: Slots, slots': Slots)
    requires Merged(slots, items, slots') && (items.Keys <= slots.Keys || |slots.Keys + items.Keys| <= MAX_SLOTS)
    ensures slots'.Keys == slots.Keys + items.Keys
    ensures forall s :: s in slots' ==> slots'[s] == if s in items then items[s] else slots[s]
  {
    if !(items.Keys <= slots'.Keys) {
      FullIsAll(slots'.Keys, slots.Keys + items.Keys);
    }
  }

  lemma FullIsAll(some: set<int>, all: set<int>)
    requires some <= all && |all| <= |some|
    ensures some == all
  {
    assert |all - some| == |all| - |some|;
  }

  /** The slot map of a result plan. */
  lemma LayoutItems(layout: Layout, remaining: seq<Content>, last: SlotSnapshot)
    requires |remaining| == |layout.grid| && last.slot == layout.result && last.held == last.item.Some?
    requires GoodLayout(layout)
    ensures var items := ItemsOf(LighterSlots(layout, remaining) + [last]);
            && items.Keys == SlotsOf(layout)
            && items[last.slot] == last.item
            && forall i :: 0 <= i < |remaining| ==> items[layout.grid[i]] == remaining[i]
  {
    var predicted := LighterSlots(layout, remaining) + [last];
    ItemsKeys(predicted);
    LayoutSlots(layout, remaining, last);
    ItemsValue(predicted, |remaining|);
    forall i | 0 <= i < |remaining|
      ensures layout.grid[i] in ItemsOf(predicted) && ItemsOf(predicted)[layout.grid[i]] == remaining[i]
    {
      ItemsValue(predicted, i);
    }
  }

  ghost function SlotsNamed(predicted: seq<SlotSnapshot>): set<int> {
    set i | 0 <= i < |predicted| :: predicted[i].slot
  }

  lemma LayoutSlots(layout: Layout, remaining: seq<Content>, last: SlotSnapshot)
    requires |remaining| == |layout.grid| && last.slot == layout.result
    ensures SlotsNamed(LighterSlots(layout, remaining) + [last]) == SlotsOf(layout)
  {
    var predicted := LighterSlots(layout, remaining) + [last];
    assert predicted[|remaining|].slot == layout.result;
    forall s | s in layout.grid
      ensures s in SlotsNamed(predicted)
    {
      var i :| 0 <= i < |layout.grid| && layout.grid[i] == s;
      assert predicted[i].slot == s;
    }
    forall i | 0 <= i < |predicted|
      ensures predicted[i].slot in SlotsOf(layout)
    {
      assert i < |remaining| ==> predicted[i].slot == layout.grid[i];
    }
  }

  lemma {:induction false} ItemsKeys(predicted: seq<SlotSnapshot>)
    ensures ItemsOf(predicted).Keys == SlotsNamed(predicted)
    decreases |predicted|
  {
    if predicted != [] {
      var n := |predicted| - 1;
      ItemsKeys(predicted[..n]);
      assert SlotsNamed(predicted) == SlotsNamed(predicted[..n]) + {predicted[n].slot};
    }
  }

  /** A slot predicted once holds what was predicted. */
  lemma {:induction false} ItemsValue(predicted: seq<SlotSnapshot>, i: nat)
    requires i < |predicted| && forall j :: i < j < |predicted| ==> predicted[j].slot != predicted[i].slot
    ensures predicted[i].slot in ItemsOf(predicted)
    ensures ItemsOf(predicted)[predicted[i].slot] == if predicted[i].held then predicted[i].item else None
    decreases |predicted|
  {
    if i < |predicted| - 1 {
      ItemsValue(predicted[..|predicted| - 1], i);
    }
  }

  // ----- Sending the click -----

  datatype Outcome = Sent | NotSent | UnknownContainer | Unpredictable

  /** Any operation on the store, by whoever makes it. */
  method Perform(c: Containers, op: Op)
    requires c.Valid()
    modifies c.repr
    ensures c.Valid() && fresh(c.repr - old(c.repr)) && Step(old(c.state), op, c.state)
  {
    match op
    case Click(sequence, window, slots, predicted, cursor) =>
      RecordClick(c, sequence, window, slots, predicted, cursor);
    case Confirm(sequence) => var verdict := c.Confirm(sequence);
    case Reject(sequence) => var verdict := c.Reject(sequence);
    case ServerSlots(window, items, stateID, stateKnown) => c.SlotsChanged(window, items, stateID, stateKnown);
    case ServerCursor(item, held) => c.CursorChanged(item, held);
    case Opened(window) => c.Opened(window);
    case Closed(window) => c.Closed(window);
    case Superseded(window) => c.Superseded(window);
  }

  /** What client.Click commits at once: the snapshot, the prediction and an exact plan's cursor. */
  method RecordClick(c: Containers, sequence: int, window: int, slots: seq<int>, predicted: seq<SlotSnapshot>,
                     cursor: Option<Cursor>)
    requires c.Valid()
    modifies c.repr
    ensures c.Valid() && fresh(c.repr - old(c.repr))
    ensures Step(old(c.state), Click(sequence, window, slots, predicted, cursor), c.state)
  {
    ghost var st := c.state;
    var pending := c.Snapshot(sequence, window, slots);
    c.Click(pending, predicted);
    ghost var recorded := c.state;
    if cursor.Some? {
      c.CursorChanged(cursor.value.item, cursor.value.held);
      ClickKeepsCursor(st, pending, predicted, recorded);
    }
  }

  /** These operations lead from one state to the other. */
  ghost predicate LeadsTo(st: State, ops: seq<Op>, st': State) {
    exists trace: seq<State> :: Run(trace, ops) && trace[0] == st && trace[|ops|] == st'
  }

  lemma LeadsToMore(st: State, ops: seq<Op>, mid: State, op: Op, st': State)
    requires LeadsTo(st, ops, mid) && Step(mid, op, st')
    ensures LeadsTo(st, ops + [op], st')
  {
    var trace: seq<State> :| Run(trace, ops) && trace[0] == st && trace[|ops|] == mid;
    var longer := trace + [st'];
    forall i: nat | i < |ops| + 1
      ensures Stepped(longer, ops + [op], i)
    {
      if i < |ops| {
        assert Stepped(trace, ops, i);
      }
    }
    assert Run(longer, ops + [op]);
  }

  lemma LeadsNowhere(st: State)
    ensures LeadsTo(st, [], st)
  {
    assert Run([st], []) && [st][0] == st;
  }

  method PerformAll(c: Containers, ops: seq<Op>)
    requires c.Valid()
    modifies c.repr
    ensures c.Valid() && fresh(c.repr - old(c.repr)) && LeadsTo(old(c.state), ops, c.state)
  {
    ghost var st := c.state;
    LeadsNowhere(st);
    for i := 0 to |ops|
      invariant c.Valid() && fresh(c.repr - old(c.repr)) && LeadsTo(st, ops[..i], c.state)
    {
      ghost var mid := c.state;
      Perform(c, ops[i]);
      LeadsToMore(st, ops[..i], mid, ops[i], c.state);
      assert ops[..i] + [ops[i]] == ops[..i + 1];
    }
    assert ops[..|ops|] == ops;
  }

  /**
   * One click from plan to wire: planned from a snapshot, which the store may have left behind by the time the click
   * is recorded. `sent` is whether the packet reached the wire; a click that did not is rolled back here, because
   * nothing will ever answer it. The store is free while the packet is being sent: `meanwhile` is what others do to
   * it then.
   */
  method ClickWindow(c: Containers, seen: View, adapter: Adapter, reg: Registry, press: Press, counter: int,
                     meanwhile: seq<Op>, sent: bool)
    returns (outcome: Outcome)
    requires c.Valid()
    modifies c.repr
    ensures c.Valid() && fresh(c.repr - old(c.repr))
    ensures var st := old(c.state);
            if press.window !in seen.menus then outcome == UnknownContainer && c.state == st
            else
              var plan := PlanOf(adapter, reg, seen.menus[press.window], seen.cursor, press);
              var op := ClickOp(plan, Int16(counter), press.window);
              if !plan.exact && adapter.protocol47 then outcome == Unpredictable && c.state == st
              else
                && outcome == (if sent then Sent else NotSent)
                && LeadsTo(st, [op] + meanwhile + (if sent then [] else [Reject(Int16(counter))]), c.state)
    ensures outcome == Unpredictable <==>
            && press.window in seen.menus && adapter.protocol47
            && !(Plain(adapter, press)
                 && (HandBare(adapter, seen.cursor) || SlotBare(adapter, seen.menus[press.window], press.slot)))
  {
    if press.window !in seen.menus {
      return UnknownContainer;
    }
    ghost var st := c.state;
    var plan := PlanClick(adapter, reg, seen.menus[press.window], seen.cursor, press);
    ExactIff(adapter, reg, seen.menus[press.window], seen.cursor, press);
    if !plan.exact && adapter.protocol47 {
      return Unpredictable;
    }
    var op := ClickOp(plan, Int16(counter), press.window);
    PerformAll(c, [op] + meanwhile);
    if sent {
      assert [op] + meanwhile + [] == [op] + meanwhile;
      return Sent;
    }
    ghost var mid := c.state;
    Perform(c, Reject(Int16(counter)));
    LeadsToMore(st, [op] + meanwhile, mid, Reject(Int16(counter)), c.state);
    return NotSent;
  }

  lemma ClickKeepsCursor(st: State, p: Pending, predicted: seq<SlotSnapshot>, st': State)
    requires WellFormed(st) && ClickStep(st, p, predicted, st')
    ensures st'.view.cursor == st.view.cursor && st'.cursorSent == st.cursorSent
  {
  }

  /**
   * A click that never reached the wire, with nothing falling between its recording and its taking back, leaves no
   * trace in what the client sees or waits for, if and only if its 16-bit sequence number has not wrapped onto one
   * still waiting for an answer, and nothing it did went unrecorded: the queue had room and its prediction opened no
   * menu, or the queue had none and it moved no cursor.
   */
  lemma UnsentClickUndoneIff(st: State, op: Op, mid: State)
    requires op.Click? && Covers(op) && Step(st, op, mid)
    ensures RejectStep(mid, op.sequence).view == st.view && RejectStep(mid, op.sequence).pending == st.pending <==>
            IndexOf(st.pending, op.sequence) < 0 && Undoable(st, op)
  {
    ClickQueues(st, op, mid);
    if |st.pending| < MAX_PENDING {
      var p := TakeSnapshot(st.view, op.sequence, op.window, op.slots);
      NewestIndex(st.pending, p);
      if IndexOf(st.pending, op.sequence) < 0 {
        ClickUndoneIff(st, op, mid);
        assert mid.pending[..|st.pending|] == st.pending;
      }
    }
  }

  lemma NewestIndex(ps: seq<Pending>, p: Pending)
    ensures var at := IndexOf(ps, p.sequence);
            IndexOf(ps + [p], p.sequence) == if at < 0 then |ps| else at
  {
    IndexOfIsFirst(ps, p.sequence);
    IndexOfIsFirst(ps + [p], p.sequence);
    assert (ps + [p])[|ps|] == p;
    assert forall i :: 0 <= i < |ps| ==> (ps + [p])[i] == ps[i];
  }
}
