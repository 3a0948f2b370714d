/**
 * The observed menus and the undo log of predicted clicks: world/containers.go and
 * world/containers_click.go. `ClickLog` gives the meaning of every mutator on values; the classes of
 * `ContainerStore` are the mutable store, each method proved against that meaning.
 */
module ClickLog {
  import opened Options
  import opened Items

  const MAX_CONTAINERS: nat := 64
  const MAX_SLOTS: nat := 1024
  const MAX_PENDING: nat := 256

  /** A missing key is a slot nobody described; a key holding `None` is a described empty slot. */
  type Slots = map<int, Content>

  datatype SlotSnapshot = SlotSnapshot(slot: int, item: Content, held: bool, known: bool)

  datatype Pending = Pending(
    sequence: int, window: int, before: seq<SlotSnapshot>, cursorBefore: Content, cursorHeld: bool)

  datatype Cursor = Cursor(item: Content, held: bool)

  /** The state a rejection must bring back: every open menu's slots, and the cursor. */
  datatype View = View(menus: map<int, Slots>, cursor: Cursor)

  datatype Meta = Meta(stateID: int, stateKnown: bool, droppedSlots: nat)

  datatype State = State(
    view: View, meta: map<int, Meta>, cursorSent: bool,
    pending: seq<Pending>, droppedPending: nat, dropped: nat)

  ghost predicate WellFormed(st: State) {
    && st.view.menus.Keys == st.meta.Keys
    && (!st.view.cursor.held ==> st.view.cursor.item == None)
  }

  // ----- Snapshots and their restoration -----

  function SnapshotOf(view: View, window: int, slot: int): SlotSnapshot {
    if window in view.menus && slot in view.menus[window] then
      var item := view.menus[window][slot];
      SlotSnapshot(slot, item, item.Some?, true)
    else
      SlotSnapshot(slot, None, false, false)
  }

  function TakeSnapshot(view: View, sequence: int, window: int, slots: seq<int>): Pending {
    Pending(sequence, window, seq(|slots|, i requires 0 <= i < |slots| => SnapshotOf(view, window, slots[i])),
            view.cursor.item, view.cursor.held)
  }

  /** What restoring one snapshot leaves in its slot; `None` is the slot becoming undescribed again. */
  function Recorded(s: SlotSnapshot): Option<Content> {
    if !s.known then None else if s.held then Some(s.item) else Some(None)
  }

  function Look(slots: Slots, slot: int): Option<Content> {
    if slot in slots then Some(slots[slot]) else None
  }

  function Put(slots: Slots, slot: int, value: Option<Content>): Slots {
    if value.Some? then slots[slot := value.value] else slots - {slot}
  }

  function RestoreSlots(slots: Slots, before: seq<SlotSnapshot>): Slots
    decreases |before|
  {
    if before == [] then slots
    else
      var last := before[|before| - 1];
      Put(RestoreSlots(slots, before[..|before| - 1]), last.slot, Recorded(last))
  }

  function CursorOf(item: Content, held: bool): Cursor {
    Cursor(if held then item else None, held)
  }

  function Restore(view: View, p: Pending): View {
    View(if p.window in view.menus
         then view.menus[p.window := RestoreSlots(view.menus[p.window], p.before)] else view.menus,
         CursorOf(p.cursorBefore, p.cursorHeld))
  }

  /** Restores every record, newest first. */
  function Rewind(view: View, ps: seq<Pending>): View
    decreases |ps|
  {
    if ps == [] then view
    else Rewind(Restore(view, ps[|ps| - 1]), ps[..|ps| - 1])
  }

  // ----- The mutators as relations on states -----

  /**
   * Merging `items` into a bounded menu. Which new slots are refused when the menu fills up depends on the
   * map's iteration order, so this is a relation: existing slots always take their new content, and a new
   * slot is refused only if the menu ends up full.
   */
  ghost predicate Merged(slots: Slots, items: Slots, slots': Slots) {
    MergedKeys(slots.Keys, items.Keys, slots'.Keys) && MergedValues(slots, items, slots')
  }

  ghost predicate MergedKeys(keys: set<int>, items: set<int>, keys': set<int>) {
    && keys <= keys' <= keys + items
    && (items <= keys' || |keys'| >= MAX_SLOTS)
    && (keys' == keys || |keys'| <= MAX_SLOTS)
  }

  ghost predicate MergedValues(slots: Slots, items: Slots, slots': Slots) {
    forall s :: s in slots' ==>
                  && (s in slots || s in items)
                  && slots'[s] == if s in items then items[s] else slots[s]
  }

  function SetMenu(st: State, id: int, slots: Slots, meta: Meta): State {
    st.(view := st.view.(menus := st.view.menus[id := slots]), meta := st.meta[id := meta])
  }

  /** A menu no packet opened is created on demand, up to the bound. */
  function TrackStep(st: State, id: int): State {
    if id in st.view.menus then st
    else if |st.view.menus| >= MAX_CONTAINERS then st.(dropped := st.dropped + 1)
    else SetMenu(st, id, map[], Meta(0, false, 0))
  }

  function MetaAfter(meta: Meta, stateID: int, stateKnown: bool, refused: nat): Meta {
    Meta(if stateKnown then stateID else meta.stateID, stateKnown || meta.stateKnown, meta.droppedSlots + refused)
  }

  ghost predicate SlotsStep(st: State, id: int, items: Slots, stateID: int, stateKnown: bool, st': State)
    requires WellFormed(st)
  {
    var tracked := TrackStep(st, id);
    if id !in tracked.view.menus then st' == tracked
    else
      && id in st'.view.menus
      && var slots' := st'.view.menus[id];
      && Merged(tracked.view.menus[id], items, slots')
      && st' == SetMenu(tracked, id, slots',
                        MetaAfter(tracked.meta[id], stateID, stateKnown, |items.Keys - slots'.Keys|))
  }

  function CursorStep(st: State, item: Content, held: bool): State {
    st.(view := st.view.(cursor := CursorOf(item, held)), cursorSent := true)
  }

  /** The predictions as a slot map; a later prediction of the same slot wins. */
  function ItemsOf(predicted: seq<SlotSnapshot>): (items: Slots)
    decreases |predicted|
  {
    if predicted == [] then map[]
    else
      var last := predicted[|predicted| - 1];
      ItemsOf(predicted[..|predicted| - 1])[last.slot := if last.held then last.item else None]
  }

  ghost predicate ClickStep(st: State, p: Pending, predicted: seq<SlotSnapshot>, st': State)
    requires WellFormed(st)
  {
    if |st.pending| >= MAX_PENDING then
      st' == st.(droppedPending := st.droppedPending + 1)
    else
      var recorded := st.(pending := st.pending + [p]);
      var items := ItemsOf(predicted);
      if items == map[] then st' == recorded else SlotsStep(recorded, p.window, items, 0, false, st')
  }

  /** The first pending click with this sequence, or -1. */
  function IndexOf(ps: seq<Pending>, sequence: int): (at: int)
    ensures -1 <= at < |ps|
  {
    if ps == [] then -1
    else if ps[0].sequence == sequence then 0
    else
      var rest := IndexOf(ps[1..], sequence);
      if rest < 0 then -1 else rest + 1
  }

  lemma {:induction false} IndexOfIsFirst(ps: seq<Pending>, sequence: int)
    ensures var at := IndexOf(ps, sequence);
            if at < 0 then forall i :: 0 <= i < |ps| ==> ps[i].sequence != sequence
            else ps[at].sequence == sequence && forall i :: 0 <= i < at ==> ps[i].sequence != sequence
  {
    if ps != [] {
      IndexOfIsFirst(ps[1..], sequence);
      assert forall i :: 1 <= i < |ps| ==> ps[i] == ps[1..][i - 1];
    }
  }

  datatype Verdict = Resolved | UnknownSequence | OutOfOrder

  function ConfirmVerdict(st: State, sequence: int): Verdict {
    var at := IndexOf(st.pending, sequence);
    if at < 0 then UnknownSequence else if at > 0 then OutOfOrder else Resolved
  }

  function ConfirmStep(st: State, sequence: int): State {
    if ConfirmVerdict(st, sequence) == Resolved then st.(pending := st.pending[1..]) else st
  }

  function RejectVerdict(st: State, sequence: int): Verdict {
    if IndexOf(st.pending, sequence) < 0 then UnknownSequence else Resolved
  }

  function RejectStep(st: State, sequence: int): State {
    var at := IndexOf(st.pending, sequence);
    if at < 0 then st
    else st.(view := Rewind(st.view, st.pending[at..]), pending := st.pending[..at], cursorSent := true)
  }

  /** The pending clicks that landed in other windows, in order. */
  function Elsewhere(ps: seq<Pending>, window: int): (kept: seq<Pending>)
    decreases |ps|
    ensures |kept| <= |ps|
  {
    if ps == [] then []
    else
      var last := ps[|ps| - 1];
      Elsewhere(ps[..|ps| - 1], window) + if last.window != window then [last] else []
  }

  function SupersededStep(st: State, window: int): State {
    st.(pending := Elsewhere(st.pending, window))
  }

  function RemoveMenu(st: State, id: int): State {
    st.(view := st.view.(menus := st.view.menus - {id}), meta := st.meta - {id})
  }

  function ClosedStep(st: State, id: int): State {
    if id !in st.view.menus then st else SupersededStep(RemoveMenu(st, id), id)
  }

  /** Reopening an ID replaces its menu and, unlike closing it, keeps the clicks pending there. */
  function OpenedStep(st: State, id: int): State {
    TrackStep(RemoveMenu(st, id), id)
  }
}
