/** Concrete runs in which the undo log does what its comments say it does not. */
module LostUpdates {
  import opened Options
  import opened Items
  import opened ClickLog
  import opened ClickRuns
  import opened ServerRuns

  const COBBLE: Content := Some(Stack(4, 1, 0, 0))
  const DIRT: Content := Some(Stack(3, 1, 0, 0))
  const EMPTY_HAND := Cursor(None, false)

  /** Menu 1 open, describing slot 0 or nothing. */
  function Menu1(shown: Option<Content>, cursor: Cursor, cursorSent: bool, pending: seq<Pending>): State {
    State(View(map[1 := if shown.Some? then map[0 := shown.value] else map[]], cursor), map[1 := Meta(0, false, 0)],
          cursorSent, pending, 0, 0)
  }

  ghost predicate ReachedBy(trace: seq<State>, ops: seq<Op>, st: State) {
    Run(trace, ops) && trace[0] == START && trace[|ops|] == st
  }

  lemma RunMore(trace: seq<State>, ops: seq<Op>, st: State, op: Op, st': State)
    requires ReachedBy(trace, ops, st) && Step(st, op, st')
    ensures ReachedBy(trace + [st'], ops + [op], st')
  {
    var trace', ops' := trace + [st'], ops + [op];
    forall i: nat | i < |ops'|
      ensures Stepped(trace', ops', i)
    {
      if i < |ops| {
        assert Stepped(trace, ops, i);
      }
    }
  }

  /** The server opens menu 1 and puts cobblestone into slot 0. */
  lemma CobbleShown() returns (trace: seq<State>, ops: seq<Op>)
    ensures |ops| == 2 && ReachedBy(trace, ops, Menu1(Some(COBBLE), EMPTY_HAND, false, []))
  {
    trace, ops := [START], [];
    assert ReachedBy(trace, ops, START);
    RunMore(trace, ops, START, Opened(1), Menu1(None, EMPTY_HAND, false, []));
    trace, ops := trace + [Menu1(None, EMPTY_HAND, false, [])], ops + [Opened(1)];
    var shown := Menu1(Some(COBBLE), EMPTY_HAND, false, []);
    Described(None, COBBLE, EMPTY_HAND, false, []);
    RunMore(trace, ops, Menu1(None, EMPTY_HAND, false, []), Describe(COBBLE), shown);
    trace, ops := trace + [shown], ops + [Describe(COBBLE)];
  }

  function Describe(item: Content): Op {
    ServerSlots(1, map[0 := item], 0, false)
  }

  lemma OneSlotMerged(slots: Slots, item: Content)
    requires slots.Keys <= {0}
    ensures Merged(slots, map[0 := item], map[0 := item])
  {
    var now: Slots := map[0 := item];
    assert now.Keys == {0} && |now.Keys| == 1;
  }

  lemma Described(was: Option<Content>, item: Content, cursor: Cursor, cursorSent: bool, pending: seq<Pending>)
    requires !cursor.held ==> cursor.item == None
    ensures Step(Menu1(was, cursor, cursorSent, pending), Describe(item),
                 Menu1(Some(item), cursor, cursorSent, pending))
  {
    var st, st' := Menu1(was, cursor, cursorSent, pending), Menu1(Some(item), cursor, cursorSent, pending);
    var now: Slots := map[0 := item];
    OneSlotMerged(st.view.menus[1], item);
    assert now.Keys - now.Keys == {};
    assert st' == SetMenu(st, 1, now, Meta(0, false, 0));
  }

  /** A recorded exact click, once its prediction is known to merge into `now`. */
  lemma ExactClick(st: State, op: Op, now: Slots) returns (st': State)
    requires WellFormed(st) && op.Click? && op.cursor.Some? && op.window in st.view.menus && |st.pending| < MAX_PENDING
    requires ItemsOf(op.predicted) != map[] && Merged(st.view.menus[op.window], ItemsOf(op.predicted), now)
    ensures Step(st, op, st')
    ensures st'.view == View(st.view.menus[op.window := now], CursorOf(op.cursor.value.item, op.cursor.value.held))
    ensures st'.pending == st.pending + [TakeSnapshot(st.view, op.sequence, op.window, op.slots)]
  {
    var items, p := ItemsOf(op.predicted), TakeSnapshot(st.view, op.sequence, op.window, op.slots);
    var meta := MetaAfter(st.meta[op.window], 0, false, |items.Keys - now.Keys|);
    var queued := st.(pending := st.pending + [p]);
    var recorded := SetMenu(queued, op.window, now, meta);
    assert SlotsStep(queued, op.window, items, 0, false, recorded);
    st' := CursorStep(recorded, op.cursor.value.item, op.cursor.value.held);
  }

  /** Picking the cobblestone up. */
  const PICK := Click(7, 1, [0], [SlotSnapshot(0, None, false, true)], Some(Cursor(COBBLE, true)))
  const PICKED := Pending(7, 1, [SlotSnapshot(0, COBBLE, true, true)], None, false)

  lemma PickedUp()
    ensures Step(Menu1(Some(COBBLE), EMPTY_HAND, false, []), PICK,
                 Menu1(Some(None), Cursor(COBBLE, true), true, [PICKED]))
  {
    var st := Menu1(Some(COBBLE), EMPTY_HAND, false, []);
    assert TakeSnapshot(st.view, 7, 1, [0]) == PICKED;
    assert PICK.predicted[..0] == [];
    assert ItemsOf(PICK.predicted) == map[0 := None];
    var slots, now: Slots := map[0 := COBBLE], map[0 := None];
    assert slots.Keys == now.Keys == {0} && now.Keys - now.Keys == {};
    assert |now.Keys| == 1;
  }

  lemma PickedInRun() returns (trace: seq<State>, ops: seq<Op>)
    ensures |ops| == 3 && ReachedBy(trace, ops, Menu1(Some(None), Cursor(COBBLE, true), true, [PICKED]))
  {
    trace, ops := CobbleShown();
    PickedUp();
    var picked := Menu1(Some(None), Cursor(COBBLE, true), true, [PICKED]);
    RunMore(trace, ops, Menu1(Some(COBBLE), EMPTY_HAND, false, []), PICK, picked);
    trace, ops := trace + [picked], ops + [PICK];
  }

  lemma PickUndone(shown: Option<Content>)
    ensures RejectStep(Menu1(shown, Cursor(COBBLE, true), true, [PICKED]), 7) ==
            Menu1(Some(COBBLE), EMPTY_HAND, true, [])
  {
    var st := Menu1(shown, Cursor(COBBLE, true), true, [PICKED]);
    RewindOne(st.view, PICKED);
    assert PICKED.before[..0] == [];
    assert [PICKED][0..] == [PICKED];
    var slots: Slots := if shown.Some? then map[0 := shown.value] else map[];
    assert RestoreSlots(slots, PICKED.before) == map[0 := COBBLE];
  }

  /** A click, the server's own update of the slot, and then the click's rejection: the update is gone. */
  lemma ServerWriteLost() returns (trace: seq<State>, ops: seq<Op>)
    ensures Run(trace, ops) && trace[0] == START && |ops| == 5
    ensures ops[3] == Describe(DIRT) && ops[4] == Reject(7)
    ensures SlotIn(trace[4].view, 1, 0) == Some(DIRT) && SlotIn(trace[5].view, 1, 0) == Some(COBBLE)
  {
    var s4, s5 := Menu1(Some(DIRT), Cursor(COBBLE, true), true, [PICKED]), Menu1(Some(COBBLE), EMPTY_HAND, true, []);
    trace, ops := PickedInRun();
    Described(Some(None), DIRT, Cursor(COBBLE, true), true, [PICKED]);
    RunMore(trace, ops, Menu1(Some(None), Cursor(COBBLE, true), true, [PICKED]), Describe(DIRT), s4);
    trace, ops := trace + [s4], ops + [Describe(DIRT)];
    PickUndone(Some(DIRT));
    RunMore(trace, ops, s4, Reject(7), s5);
    trace, ops := trace + [s5], ops + [Reject(7)];
  }

  /** The same with the menu opened anew in between: the old menu's cobblestone turns up in the new one. */
  lemma OldMenuReturns() returns (trace: seq<State>, ops: seq<Op>)
    ensures Run(trace, ops) && trace[0] == START && |ops| == 5
    ensures ops[3] == Opened(1) && ops[4] == Reject(7)
    ensures SlotIn(trace[4].view, 1, 0) == None && SlotIn(trace[5].view, 1, 0) == Some(COBBLE)
  {
    var s4, s5 := Menu1(None, Cursor(COBBLE, true), true, [PICKED]), Menu1(Some(COBBLE), EMPTY_HAND, true, []);
    trace, ops := PickedInRun();
    RunMore(trace, ops, Menu1(Some(None), Cursor(COBBLE, true), true, [PICKED]), Opened(1), s4);
    trace, ops := trace + [s4], ops + [Opened(1)];
    PickUndone(None);
    RunMore(trace, ops, s4, Reject(7), s5);
    trace, ops := trace + [s5], ops + [Reject(7)];
  }

  const HOLDING := State(View(map[], Cursor(COBBLE, true)), map[], true, [], 0, 0)

  lemma PickedMenuCloses()
    ensures Step(Menu1(Some(None), Cursor(COBBLE, true), true, [PICKED]), Closed(1), HOLDING)
  {
    var st := Menu1(Some(None), Cursor(COBBLE, true), true, [PICKED]);
    assert [PICKED][..0] == [] && Elsewhere([PICKED], 1) == [];
    assert SupersededStep(RemoveMenu(st, 1), 1) == HOLDING;
  }

  /**
   * A click that could have been taken back without a trace, had the server not closed its window before the failed
   * send was noticed: taking it back finds nothing, and the cursor keeps a stack nobody picked up.
   */
  lemma ClosedBeforeTakenBack() returns (trace: seq<State>, ops: seq<Op>)
    ensures Run(trace, ops) && trace[0] == START && |ops| == 5
    ensures ops[2] == PICK && ops[3] == Closed(1) && ops[4] == Reject(7)
    ensures IndexOf(trace[2].pending, 7) < 0 && Undoable(trace[2], PICK) && Covers(PICK)
    ensures trace[2].view.cursor == EMPTY_HAND && trace[5].view.cursor == Cursor(COBBLE, true)
  {
    trace, ops := CobbleShown();
    var shown := Menu1(Some(COBBLE), EMPTY_HAND, false, []);
    var picked := Menu1(Some(None), Cursor(COBBLE, true), true, [PICKED]);
    PickedUp();
    RunMore(trace, ops, shown, PICK, picked);
    trace, ops := trace + [picked], ops + [PICK];
    PickedMenuCloses();
    RunMore(trace, ops, picked, Closed(1), HOLDING);
    trace, ops := trace + [HOLDING], ops + [Closed(1)];
    RunMore(trace, ops, HOLDING, Reject(7), HOLDING);
    trace, ops := trace + [HOLDING], ops + [Reject(7)];
  }

  // ----- A window closed between planning and recording -----

  const NO_MENU := State(View(map[], EMPTY_HAND), map[], false, [], 0, 0)
  const PICKED_BLIND := Pending(7, 1, [SlotSnapshot(0, None, false, false)], None, false)

  lemma PickedBlind()
    ensures Step(NO_MENU, PICK, Menu1(Some(None), Cursor(COBBLE, true), true, [PICKED_BLIND]))
  {
    assert TakeSnapshot(NO_MENU.view, 7, 1, [0]) == PICKED_BLIND;
    assert PICK.predicted[..0] == [];
    assert ItemsOf(PICK.predicted) == map[0 := None];
    OneSlotMerged(map[], None);
    var now: Slots := map[0 := None];
    assert now.Keys - now.Keys == {};
    assert [] + [PICKED_BLIND] == [PICKED_BLIND];
    var queued := NO_MENU.(pending := [PICKED_BLIND]);
    assert SetMenu(TrackStep(queued, 1), 1, now, Meta(0, false, 0)) ==
           Menu1(Some(None), EMPTY_HAND, false, [PICKED_BLIND]);
    assert SlotsStep(queued, 1, map[0 := None], 0, false, Menu1(Some(None), EMPTY_HAND, false, [PICKED_BLIND]));
  }

  lemma BlindUndone()
    ensures RejectStep(Menu1(Some(None), Cursor(COBBLE, true), true, [PICKED_BLIND]), 7) ==
            Menu1(None, EMPTY_HAND, true, [])
  {
    var st := Menu1(Some(None), Cursor(COBBLE, true), true, [PICKED_BLIND]);
    RewindOne(st.view, PICKED_BLIND);
    assert PICKED_BLIND.before[..0] == [] && [PICKED_BLIND][0..] == [PICKED_BLIND];
    assert RestoreSlots(st.view.menus[1], PICKED_BLIND.before) == map[];
  }

  lemma CobbleClosed()
    ensures Step(Menu1(Some(COBBLE), EMPTY_HAND, false, []), Closed(1), NO_MENU)
  {
    var st := Menu1(Some(COBBLE), EMPTY_HAND, false, []);
    assert RemoveMenu(st, 1) == NO_MENU;
  }

  /** A click planned while its window was open and recorded after it closed leaves a menu nobody opened. */
  lemma ClosedMenuReturns() returns (trace: seq<State>, ops: seq<Op>)
    ensures Run(trace, ops) && trace[0] == START && |ops| == 5
    ensures ops[2] == Closed(1) && ops[3] == PICK && ops[4] == Reject(7)
    ensures 1 !in trace[3].view.menus && 1 in trace[5].view.menus
  {
    var s4, s5 := Menu1(Some(None), Cursor(COBBLE, true), true, [PICKED_BLIND]), Menu1(None, EMPTY_HAND, true, []);
    trace, ops := ClosedInRun();
    PickedBlind();
    RunMore(trace, ops, NO_MENU, PICK, s4);
    trace, ops := trace + [s4], ops + [PICK];
    BlindUndone();
    RunMore(trace, ops, s4, Reject(7), s5);
    trace, ops := trace + [s5], ops + [Reject(7)];
  }

  lemma ClosedInRun() returns (trace: seq<State>, ops: seq<Op>)
    ensures |ops| == 3 && ops[2] == Closed(1) && ReachedBy(trace, ops, NO_MENU)
  {
    trace, ops := CobbleShown();
    CobbleClosed();
    RunMore(trace, ops, Menu1(Some(COBBLE), EMPTY_HAND, false, []), Closed(1), NO_MENU);
    trace, ops := trace + [NO_MENU], ops + [Closed(1)];
  }

  // ----- A full queue -----

  /** A click on nothing, which changes nothing and waits for its answer like any other. */
  function Idle(sequence: int): Op {
    Click(sequence, 1, [5], [], Some(EMPTY_HAND))
  }

  lemma IdleWaits(sequence: int, pending: seq<Pending>) returns (p: Pending)
    requires |pending| < MAX_PENDING
    ensures Step(Menu1(Some(COBBLE), EMPTY_HAND, true, pending), Idle(sequence),
                 Menu1(Some(COBBLE), EMPTY_HAND, true, pending + [p]))
  {
    p := TakeSnapshot(Menu1(Some(COBBLE), EMPTY_HAND, true, pending).view, sequence, 1, [5]);
  }

  /** n clicks on nothing, none answered. */
  lemma QueueFilled(n: nat) returns (trace: seq<State>, ops: seq<Op>, pending: seq<Pending>)
    requires n <= MAX_PENDING
    ensures |pending| == n && ReachedBy(trace, ops, Menu1(Some(COBBLE), EMPTY_HAND, true, pending))
  {
    trace, ops := CobbleShown();
    pending := [];
    var held := Menu1(Some(COBBLE), EMPTY_HAND, true, []);
    RunMore(trace, ops, Menu1(Some(COBBLE), EMPTY_HAND, false, []), ServerCursor(None, false), held);
    trace, ops := trace + [held], ops + [ServerCursor(None, false)];
    for k := 0 to n
      invariant |pending| == k && ReachedBy(trace, ops, Menu1(Some(COBBLE), EMPTY_HAND, true, pending))
    {
      var p := IdleWaits(k, pending);
      RunMore(trace, ops, Menu1(Some(COBBLE), EMPTY_HAND, true, pending), Idle(k),
              Menu1(Some(COBBLE), EMPTY_HAND, true, pending + [p]));
      pending := pending + [p];
      trace, ops := trace + [Menu1(Some(COBBLE), EMPTY_HAND, true, pending)], ops + [Idle(k)];
    }
  }

  /** Picking up with 256 clicks unanswered: nothing is recorded, and the hand is full all the same. */
  lemma FullQueueMovesCursor() returns (trace: seq<State>, ops: seq<Op>, st: State, st': State)
    ensures ReachedBy(trace, ops, st') && |ops| > 0 && trace[|ops| - 1] == st && ops[|ops| - 1] == PICK
    ensures |st.pending| == MAX_PENDING && st'.pending == st.pending && st'.view.menus == st.view.menus
    ensures st.view.cursor == EMPTY_HAND && st'.view.cursor == Cursor(COBBLE, true)
  {
    var pending;
    trace, ops, pending := QueueFilled(MAX_PENDING);
    st := Menu1(Some(COBBLE), EMPTY_HAND, true, pending);
    st' := st.(view := st.view.(cursor := Cursor(COBBLE, true)), droppedPending := 1);
    RunMore(trace, ops, st, PICK, st');
    trace, ops := trace + [st'], ops + [PICK];
  }
}
