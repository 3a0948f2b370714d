/** What the undo log guarantees over whole runs of clicks, verdicts and server updates. */
module ClickRuns {
  import opened Options
  import opened Items
  import opened ClickLog

  /**
   * One atomic change to the store. `Click` is the whole of what client.Click commits before it sends: the
   * snapshot, the prediction, and for an exact plan the cursor move.
   */
  datatype Op =
    | Click(sequence: int, window: int, slots: seq<int>, predicted: seq<SlotSnapshot>, cursor: Option<Cursor>)
    | Confirm(sequence: int)
    | Reject(sequence: int)
    | ServerSlots(window: int, items: Slots, stateID: int, stateKnown: bool)
    | ServerCursor(item: Content, held: bool)
    | Opened(window: int)
    | Closed(window: int)
    | Superseded(window: int)

  ghost predicate Step(st: State, op: Op, st': State) {
    && WellFormed(st)
    && match op
       case Click(sequence, window, slots, predicted, cursor) =>
         var p := TakeSnapshot(st.view, sequence, window, slots);
         if cursor.None? then ClickStep(st, p, predicted, st')
         else
           // The state between recording the click and moving the cursor.
           var recorded := st'.(view := st'.view.(cursor := st.view.cursor), cursorSent := st.cursorSent);
           && ClickStep(st, p, predicted, recorded)
           && st' == CursorStep(recorded, cursor.value.item, cursor.value.held)
       case Confirm(sequence) => st' == ConfirmStep(st, sequence)
       case Reject(sequence) => st' == RejectStep(st, sequence)
       case ServerSlots(window, items, stateID, stateKnown) => SlotsStep(st, window, items, stateID, stateKnown, st')
       case ServerCursor(item, held) => st' == CursorStep(st, item, held)
       case Opened(window) => st' == OpenedStep(st, window)
       case Closed(window) => st' == ClosedStep(st, window)
       case Superseded(window) => st' == SupersededStep(st, window)
  }

  /** The snapshot names every slot the plan predicts. */
  ghost predicate Covers(op: Op)
    requires op.Click?
  {
    forall i :: 0 <= i < |op.predicted| ==> op.predicted[i].slot in op.slots
  }

  /** A click into an open window while the queue has room, or a verdict. */
  ghost predicate ClientOp(st: State, op: Op) {
    || (op.Click? && op.window in st.view.menus && Covers(op) && |st.pending| < MAX_PENDING)
    || op.Confirm? || op.Reject?
  }

  // ----- Looking one slot up after restoring -----

  /** What the last snapshot of `slot` in one click recorded, if any names it. */
  function LastRecord(before: seq<SlotSnapshot>, slot: int): Option<Option<Content>>
    decreases |before|
  {
    if before == [] then None
    else if before[|before| - 1].slot == slot then Some(Recorded(before[|before| - 1]))
    else LastRecord(before[..|before| - 1], slot)
  }

  /** What the oldest click naming a slot of a window recorded. */
  function OldestRecord(ps: seq<Pending>, window: int, slot: int): Option<Option<Content>> {
    if ps == [] then None
    else if ps[0].window == window && LastRecord(ps[0].before, slot).Some? then LastRecord(ps[0].before, slot)
    else OldestRecord(ps[1..], window, slot)
  }

  lemma {:induction false} RestoreSlotsLook(slots: Slots, before: seq<SlotSnapshot>, slot: int)
    ensures Look(RestoreSlots(slots, before), slot) ==
            if LastRecord(before, slot).Some? then LastRecord(before, slot).value else Look(slots, slot)
    decreases |before|
  {
    if before != [] {
      RestoreSlotsLook(slots, before[..|before| - 1], slot);
    }
  }

  lemma {:induction false} OldestRecordLast(ps: seq<Pending>, p: Pending, window: int, slot: int)
    ensures OldestRecord(ps + [p], window, slot) ==
            if OldestRecord(ps, window, slot).Some? then OldestRecord(ps, window, slot)
            else OldestRecord([p], window, slot)
  {
    if ps == [] {
      assert ps + [p] == [p];
    } else {
      assert (ps + [p])[1..] == ps[1..] + [p];
      OldestRecordLast(ps[1..], p, window, slot);
    }
  }

  /**
   * Rolling any records back over any state, exactly: a slot takes what the oldest of them recorded and keeps
   * its content when none names it; the cursor takes what the oldest recorded; no menu opens or closes.
   */
  lemma {:induction false} RewindLook(view: View, ps: seq<Pending>, window: int, slot: int)
    requires window in view.menus
    ensures Rewind(view, ps).menus.Keys == view.menus.Keys
    ensures Look(Rewind(view, ps).menus[window], slot) ==
            if OldestRecord(ps, window, slot).Some? then OldestRecord(ps, window, slot).value
            else Look(view.menus[window], slot)
    ensures Rewind(view, ps).cursor ==
            if ps == [] then view.cursor else CursorOf(ps[0].cursorBefore, ps[0].cursorHeld)
    decreases |ps|
  {
    if ps != [] {
      var init, p := ps[..|ps| - 1], ps[|ps| - 1];
      var restored := Restore(view, p);
      assert restored.menus.Keys == view.menus.Keys;
      RewindLook(restored, init, window, slot);
      assert init + [p] == ps;
      OldestRecordLast(init, p, window, slot);
      assert [p][1..] == [];
      if p.window == window {
        RestoreSlotsLook(view.menus[window], p.before, slot);
      }
    }
  }

  lemma RewindOne(view: View, p: Pending)
    ensures Rewind(view, [p]) == Restore(view, p)
  {
    assert [p][..0] == [];
  }

  lemma RewindMore(view: View, ps: seq<Pending>, p: Pending)
    ensures Rewind(view, ps + [p]) == Rewind(Restore(view, p), ps)
  {
    assert (ps + [p])[..|ps|] == ps;
  }

  lemma {:induction false} RewindSplit(view: View, older: seq<Pending>, newer: seq<Pending>)
    ensures Rewind(view, older + newer) == Rewind(Rewind(view, newer), older)
    decreases |newer|
  {
    if newer == [] {
      assert older + newer == older;
    } else {
      var init, p := newer[..|newer| - 1], newer[|newer| - 1];
      assert (older + newer)[..|older + newer| - 1] == older + init;
      RewindSplit(Restore(view, p), older, init);
    }
  }

  /**
   * The exact limit of a rollback: rejecting a click leaves a slot as it stands - say, as the server wrote it
   * after the click - if and only if no rejected click names that slot, or the oldest that does recorded the
   * very same content.
   */
  lemma ServerWriteSurvivesIff(st: State, sequence: int, window: int, slot: int)
    requires window in st.view.menus && IndexOf(st.pending, sequence) >= 0
    ensures var at := IndexOf(st.pending, sequence);
            var st' := RejectStep(st, sequence);
            var oldest := OldestRecord(st.pending[at..], window, slot);
            && window in st'.view.menus
            && (Look(st'.view.menus[window], slot) == Look(st.view.menus[window], slot) <==>
                oldest.None? || oldest.value == Look(st.view.menus[window], slot))
  {
    RewindLook(st.view, st.pending[IndexOf(st.pending, sequence)..], window, slot);
  }

  // ----- One click and its record -----

  /** What a view says of a slot; one in a window that is not open is as undescribed as any. */
  function SlotIn(view: View, window: int, slot: int): Option<Content> {
    if window in view.menus then Look(view.menus[window], slot) else None
  }

  lemma {:induction false} LastRecordOfSnapshot(
    view: View, sequence: int, window: int, slots: seq<int>, n: nat, slot: int)
    requires n <= |slots|
    ensures LastRecord(TakeSnapshot(view, sequence, window, slots).before[..n], slot) ==
            if slot in slots[..n] then Some(SlotIn(view, window, slot)) else None
  {
    if n > 0 {
      var before := TakeSnapshot(view, sequence, window, slots).before;
      assert before[..n][..n - 1] == before[..n - 1];
      assert slots[..n] == slots[..n - 1] + [slots[n - 1]];
      LastRecordOfSnapshot(view, sequence, window, slots, n - 1, slot);
    }
  }

  /** A record says of each slot it names what the view said when it was taken. */
  lemma RecordOfSnapshot(view: View, sequence: int, window: int, slots: seq<int>, slot: int)
    ensures LastRecord(TakeSnapshot(view, sequence, window, slots).before, slot) ==
            if slot in slots then Some(SlotIn(view, window, slot)) else None
  {
    var before := TakeSnapshot(view, sequence, window, slots).before;
    LastRecordOfSnapshot(view, sequence, window, slots, |slots|, slot);
    assert before[..|slots|] == before && slots[..|slots|] == slots;
  }

  lemma {:induction false} ItemsOfNamed(predicted: seq<SlotSnapshot>, slot: int)
    requires slot in ItemsOf(predicted)
    ensures exists i :: 0 <= i < |predicted| && predicted[i].slot == slot
    decreases |predicted|
  {
    if predicted[|predicted| - 1].slot != slot {
      ItemsOfNamed(predicted[..|predicted| - 1], slot);
      var i :| 0 <= i < |predicted| - 1 && predicted[..|predicted| - 1][i].slot == slot;
      assert predicted[i].slot == slot;
    }
  }

  /** Restoring a menu from a snapshot that covers whatever changed since gives the snapshotted menu back. */
  lemma RestoreCovered(view: View, sequence: int, window: int, slots: seq<int>, changed: Slots)
    requires window in view.menus
    requires forall s :: s !in slots ==> Look(changed, s) == Look(view.menus[window], s)
    ensures RestoreSlots(changed, TakeSnapshot(view, sequence, window, slots).before) == view.menus[window]
  {
    var before := TakeSnapshot(view, sequence, window, slots).before;
    var restored := RestoreSlots(changed, before);
    forall s
      ensures Look(restored, s) == Look(view.menus[window], s)
    {
      RestoreSlotsLook(changed, before, s);
      RecordOfSnapshot(view, sequence, window, slots, s);
    }
    LookExtensional(restored, view.menus[window]);
  }

  lemma LookExtensional(a: Slots, b: Slots)
    requires forall s :: Look(a, s) == Look(b, s)
    ensures a == b
  {
    forall s
      ensures s in a <==> s in b
      ensures s in a ==> a[s] == b[s]
    {
      assert Look(a, s) == Look(b, s);
    }
  }

  /** What a prediction touches: the named slots of the one open window. */
  lemma PredictionTouches(st: State, p: Pending, predicted: seq<SlotSnapshot>, st': State)
    requires WellFormed(st) && p.window in st.view.menus && |st.pending| < MAX_PENDING
    requires ClickStep(st, p, predicted, st')
    ensures st'.pending == st.pending + [p] && st'.view.cursor == st.view.cursor
    ensures p.window in st'.view.menus
    ensures st'.view.menus == st.view.menus[p.window := st'.view.menus[p.window]]
    ensures forall s :: s !in ItemsOf(predicted) ==>
                          Look(st'.view.menus[p.window], s) == Look(st.view.menus[p.window], s)
    ensures if ItemsOf(predicted) == map[] then st'.view.menus[p.window] == st.view.menus[p.window]
            else Merged(st.view.menus[p.window], ItemsOf(predicted), st'.view.menus[p.window])
  {
  }

  lemma UncoveredIsNotPredicted(op: Op, slot: int)
    requires op.Click? && Covers(op) && slot !in op.slots
    ensures slot !in ItemsOf(op.predicted)
  {
    if slot in ItemsOf(op.predicted) {
      ItemsOfNamed(op.predicted, slot);
    }
  }

  /** A recorded click is one more record, and restoring it gives back the whole view from before it. */
  lemma ClickRecorded(st: State, op: Op, st': State)
    requires op.Click? && ClientOp(st, op) && Step(st, op, st')
    ensures var p := TakeSnapshot(st.view, op.sequence, op.window, op.slots);
            && st'.pending == st.pending + [p]
            && st'.view.menus.Keys == st.view.menus.Keys
            && Restore(st'.view, p) == st.view
  {
    var p := TakeSnapshot(st.view, op.sequence, op.window, op.slots);
    var recorded := if op.cursor.None? then st'
                    else st'.(view := st'.view.(cursor := st.view.cursor), cursorSent := st.cursorSent);
    PredictionTouches(st, p, op.predicted, recorded);
    var slots, slots' := st.view.menus[op.window], st'.view.menus[op.window];
    forall s | s !in op.slots
      ensures Look(slots', s) == Look(slots, s)
    {
      UncoveredIsNotPredicted(op, s);
    }
    RestoreCovered(st.view, op.sequence, op.window, op.slots, slots');
    OneMenuBack(st.view, p, st'.view, slots');
  }

  lemma OneMenuBack(view: View, p: Pending, view': View, changed: Slots)
    requires p.window in view.menus && view'.menus == view.menus[p.window := changed]
    requires RestoreSlots(changed, p.before) == view.menus[p.window]
    requires CursorOf(p.cursorBefore, p.cursorHeld) == view.cursor
    ensures Restore(view', p) == view
  {
    assert view'.menus[p.window := view.menus[p.window]] == view.menus;
  }

  /** Of a click into a window that is not open, only a prediction that finds room for a menu leaves a trace. */
  lemma UnopenedClick(st: State, op: Op, st': State)
    requires op.Click? && op.window !in st.view.menus && |st.pending| < MAX_PENDING && Step(st, op, st')
    ensures var p := TakeSnapshot(st.view, op.sequence, op.window, op.slots);
            && st'.pending == st.pending + [p]
            && (Restore(st'.view, p) == st.view <==> op.predicted == [] || |st.view.menus| >= MAX_CONTAINERS)
  {
    var p := TakeSnapshot(st.view, op.sequence, op.window, op.slots);
    var recorded := st.(pending := st.pending + [p]);
    var tracked := TrackStep(recorded, op.window);
    if op.predicted != [] {
      assert op.predicted[|op.predicted| - 1].slot in ItemsOf(op.predicted);
      if |st.view.menus| < MAX_CONTAINERS {
        assert op.window in tracked.view.menus;
        assert op.window in Restore(st'.view, p).menus;
      }
    }
  }

  /** Nothing the queue or the containers' bound refuses is needed to undo the click. */
  ghost predicate Undoable(st: State, op: Op)
    requires op.Click?
  {
    if |st.pending| < MAX_PENDING then
      op.window in st.view.menus || op.predicted == [] || |st.view.menus| >= MAX_CONTAINERS
    else
      op.cursor.None? || CursorOf(op.cursor.value.item, op.cursor.value.held) == st.view.cursor
  }

  /**
   * A click into a full queue is refused by the log while client.Click still moves the cursor, and a prediction
   * for a window that has closed meanwhile opens a menu again. So undoing whatever records a click added brings
   * the view back if and only if the queue had room and the prediction opened no menu, or it had none and the
   * click moved no cursor.
   */
  lemma ClickUndoneIff(st: State, op: Op, st': State)
    requires op.Click? && Covers(op) && Step(st, op, st')
    ensures |st.pending| <= |st'.pending|
    ensures Rewind(st'.view, st'.pending[|st.pending|..]) == st.view <==> Undoable(st, op)
  {
    if |st.pending| < MAX_PENDING {
      if op.window in st.view.menus {
        ClickRecorded(st, op, st');
      } else {
        UnopenedClick(st, op, st');
      }
      assert st'.pending[|st.pending|..] == [st'.pending[|st.pending|]];
      RewindOne(st'.view, st'.pending[|st.pending|]);
    } else {
      assert st'.pending[|st.pending|..] == [];
    }
  }

  // ----- Runs of clicks and verdicts -----

  ghost predicate ClientRun(trace: seq<State>, ops: seq<Op>) {
    && |trace| == |ops| + 1
    && trace[0].pending == []
    && forall i :: 0 <= i < |ops| ==> ClientOp(trace[i], ops[i]) && Step(trace[i], ops[i], trace[i + 1])
  }

  /** The clicks unanswered after the operation at position t, from those unanswered before it. */
  ghost function NextClicks(clicks: seq<nat>, st: State, ops: seq<Op>, t: nat): seq<nat>
    requires t < |ops|
  {
    match ops[t]
    case Click(_, _, _, _, _) => if |st.pending| < MAX_PENDING then clicks + [t] else clicks
    case Confirm(sequence) => if ConfirmVerdict(st, sequence) == Resolved && clicks != [] then clicks[1..] else clicks
    case Reject(sequence) =>
      var at := IndexOf(st.pending, sequence);
      if 0 <= at < |clicks| then clicks[..at] else clicks
    case Closed(window) => if window in st.view.menus then ClicksElsewhere(clicks, ops, window) else clicks
    case Superseded(window) => ClicksElsewhere(clicks, ops, window)
    case _ => clicks
  }

  /** The positions in the run of the clicks still unanswered after n operations, oldest first. */
  ghost function Unanswered(trace: seq<State>, ops: seq<Op>, n: nat): seq<nat>
    requires n <= |ops| < |trace|
  {
    if n == 0 then [] else NextClicks(Unanswered(trace, ops, n - 1), trace[n - 1], ops, n - 1)
  }

  ghost predicate ClickIn(ops: seq<Op>, t: nat, window: int) {
    t < |ops| && ops[t].Click? && ops[t].window == window
  }

  /** The clicks that did not land in a window, in order. */
  ghost function ClicksElsewhere(clicks: seq<nat>, ops: seq<Op>, window: int): seq<nat>
    decreases |clicks|
  {
    if clicks == [] then []
    else
      var last := clicks[|clicks| - 1];
      ClicksElsewhere(clicks[..|clicks| - 1], ops, window) + if ClickIn(ops, last, window) then [] else [last]
  }

  /**
   * Record k of a state belongs to the click at position t of the run; rewinding from record k gives back the
   * view just before that click, and rewinding only the later records gives the view just after it.
   */
  ghost predicate Tracks(trace: seq<State>, ops: seq<Op>, st: State, k: nat, t: nat)
    requires k < |st.pending|
  {
    && t < |ops| < |trace|
    && ops[t].Click? && st.pending[k].sequence == ops[t].sequence
    && Rewind(st.view, st.pending[k..]) == trace[t].view
    && Rewind(st.view, st.pending[k + 1..]) == trace[t + 1].view
  }

  /** Undoing a recorded click first leaves the older records to undo as they stood. */
  lemma RewindPastClick(st: State, op: Op, st': State, k: nat)
    requires op.Click? && ClientOp(st, op) && Step(st, op, st') && k <= |st.pending|
    ensures |st'.pending| == |st.pending| + 1 && st'.pending[..|st.pending|] == st.pending
    ensures Rewind(st'.view, st'.pending[k..]) == Rewind(st.view, st.pending[k..])
  {
    ClickRecorded(st, op, st');
    RewindAppended(st'.view, st.pending, TakeSnapshot(st.view, op.sequence, op.window, op.slots), k);
  }

  lemma RewindAppended(view: View, ps: seq<Pending>, p: Pending, k: nat)
    requires k <= |ps|
    ensures (ps + [p])[..|ps|] == ps && Rewind(view, (ps + [p])[k..]) == Rewind(Restore(view, p), ps[k..])
  {
    assert (ps + [p])[k..] == ps[k..] + [p];
    RewindMore(view, ps[k..], p);
  }

  lemma TracksClick(trace: seq<State>, ops: seq<Op>, n: nat, k: nat, t: nat)
    requires ClientRun(trace, ops) && n < |ops| && ops[n].Click?
    requires k < |trace[n].pending| && Tracks(trace, ops, trace[n], k, t)
    ensures k < |trace[n + 1].pending| && Tracks(trace, ops, trace[n + 1], k, t)
  {
    RewindPastClick(trace[n], ops[n], trace[n + 1], k);
    RewindPastClick(trace[n], ops[n], trace[n + 1], k + 1);
    assert trace[n + 1].pending[k] == trace[n + 1].pending[..|trace[n].pending|][k];
  }

  lemma TracksNewClick(trace: seq<State>, ops: seq<Op>, n: nat)
    requires ClientRun(trace, ops) && n < |ops| && ops[n].Click?
    ensures |trace[n + 1].pending| == |trace[n].pending| + 1
    ensures Tracks(trace, ops, trace[n + 1], |trace[n].pending|, n)
  {
    var st, st' := trace[n], trace[n + 1];
    ClickRecorded(st, ops[n], st');
    assert st'.pending[|st.pending|..] == [st'.pending[|st.pending|]];
    RewindOne(st'.view, st'.pending[|st.pending|]);
    assert st'.pending[|st.pending| + 1..] == [];
  }

  lemma RewindPrefix(view: View, ps: seq<Pending>, k: nat, at: nat)
    requires k <= at <= |ps|
    ensures Rewind(Rewind(view, ps[at..]), ps[..at][k..]) == Rewind(view, ps[k..])
  {
    RewindSplit(view, ps[k..at], ps[at..]);
    assert ps[k..at] + ps[at..] == ps[k..];
    assert ps[..at][k..] == ps[k..at];
  }

  lemma TracksReject(trace: seq<State>, ops: seq<Op>, st: State, sequence: int, k: nat, t: nat)
    requires k < IndexOf(st.pending, sequence) && Tracks(trace, ops, st, k, t)
    ensures k < |RejectStep(st, sequence).pending| && Tracks(trace, ops, RejectStep(st, sequence), k, t)
  {
    RewindPrefix(st.view, st.pending, k, IndexOf(st.pending, sequence));
    RewindPrefix(st.view, st.pending, k + 1, IndexOf(st.pending, sequence));
  }

  /** The records are exactly those of the unanswered clicks, each able to undo its own. */
  ghost predicate Logged(trace: seq<State>, ops: seq<Op>, n: nat)
    requires n <= |ops| < |trace|
  {
    var clicks := Unanswered(trace, ops, n);
    && |clicks| == |trace[n].pending|
    && forall k :: 0 <= k < |clicks| ==> Tracks(trace, ops, trace[n], k, clicks[k])
  }

  lemma LoggedAfterClick(trace: seq<State>, ops: seq<Op>, n: nat)
    requires ClientRun(trace, ops) && n < |ops| && ops[n].Click? && Logged(trace, ops, n)
    ensures Logged(trace, ops, n + 1)
  {
    TracksNewClick(trace, ops, n);
    var clicks := Unanswered(trace, ops, n);
    forall k | 0 <= k < |clicks|
      ensures Tracks(trace, ops, trace[n + 1], k, clicks[k])
    {
      TracksClick(trace, ops, n, k, clicks[k]);
    }
  }

  lemma LoggedAfterConfirm(trace: seq<State>, ops: seq<Op>, n: nat)
    requires ClientRun(trace, ops) && n < |ops| && ops[n].Confirm? && Logged(trace, ops, n)
    ensures Logged(trace, ops, n + 1)
  {
    var st, st', clicks := trace[n], trace[n + 1], Unanswered(trace, ops, n);
    assert Step(st, ops[n], st');
    if ConfirmVerdict(st, ops[n].sequence) == Resolved {
      forall k | 0 <= k < |clicks| - 1
        ensures Tracks(trace, ops, st', k, clicks[1..][k])
      {
        assert Tracks(trace, ops, st, k + 1, clicks[k + 1]);
        assert st'.pending[k..] == st.pending[k + 1..] && st'.pending[k + 1..] == st.pending[k + 2..];
      }
    }
  }

  lemma LoggedAfterReject(trace: seq<State>, ops: seq<Op>, n: nat)
    requires ClientRun(trace, ops) && n < |ops| && ops[n].Reject? && Logged(trace, ops, n)
    ensures Logged(trace, ops, n + 1)
  {
    var st, at := trace[n], IndexOf(trace[n].pending, ops[n].sequence);
    assert Step(st, ops[n], trace[n + 1]);
    var clicks := Unanswered(trace, ops, n);
    forall k | 0 <= k < at
      ensures k < |trace[n + 1].pending| && Tracks(trace, ops, trace[n + 1], k, clicks[..at][k])
    {
      TracksReject(trace, ops, st, ops[n].sequence, k, clicks[k]);
    }
  }

  /** The invariant of every run. */
  lemma {:induction false} UndoLog(trace: seq<State>, ops: seq<Op>, n: nat)
    requires ClientRun(trace, ops) && n <= |ops|
    ensures Logged(trace, ops, n)
  {
    if n > 0 {
      UndoLog(trace, ops, n - 1);
      assert ClientOp(trace[n - 1], ops[n - 1]);
      if ops[n - 1].Click? {
        LoggedAfterClick(trace, ops, n - 1);
      } else if ops[n - 1].Confirm? {
        LoggedAfterConfirm(trace, ops, n - 1);
      } else {
        LoggedAfterReject(trace, ops, n - 1);
      }
    }
  }

  /**
   * Rejecting a click, in any run, puts every window's slots and the cursor back to their values just before
   * that click was made and leaves the records older than it. A sequence nobody waits for changes nothing.
   */
  lemma RejectRestores(trace: seq<State>, ops: seq<Op>, n: nat)
    requires ClientRun(trace, ops) && n < |ops| && ops[n].Reject?
    ensures var at := IndexOf(trace[n].pending, ops[n].sequence);
            if at < 0 then trace[n + 1] == trace[n]
            else
              && |Unanswered(trace, ops, n)| == |trace[n].pending|
              && var t := Unanswered(trace, ops, n)[at];
              && t < n && ops[t].Click? && ops[t].sequence == ops[n].sequence
              && trace[n + 1].view == trace[t].view
              && trace[n + 1].pending == trace[n].pending[..at]
  {
    assert Step(trace[n], ops[n], trace[n + 1]);
    UndoLog(trace, ops, n);
    UnansweredBelow(trace, ops, n);
    var at := IndexOf(trace[n].pending, ops[n].sequence);
    IndexOfIsFirst(trace[n].pending, ops[n].sequence);
    if at >= 0 {
      assert Tracks(trace, ops, trace[n], at, Unanswered(trace, ops, n)[at]);
    }
  }

  /** Positions below n, in order. */
  ghost predicate Ascending(clicks: seq<nat>, n: nat) {
    && (forall k :: 0 <= k < |clicks| ==> clicks[k] < n)
    && forall j, k :: 0 <= j < k < |clicks| ==> clicks[j] < clicks[k]
  }

  lemma {:induction false} ClicksElsewhereAscend(clicks: seq<nat>, ops: seq<Op>, window: int, n: nat)
    requires Ascending(clicks, n)
    ensures Ascending(ClicksElsewhere(clicks, ops, window), n)
    decreases |clicks|
  {
    if clicks != [] {
      var init, last := clicks[..|clicks| - 1], clicks[|clicks| - 1];
      assert Ascending(init, last);
      ClicksElsewhereAscend(init, ops, window, last);
    }
  }

  lemma NextClicksAscend(clicks: seq<nat>, st: State, ops: seq<Op>, t: nat)
    requires t < |ops| && Ascending(clicks, t)
    ensures Ascending(NextClicks(clicks, st, ops, t), t + 1)
  {
    if ops[t].Closed? || ops[t].Superseded? {
      ClicksElsewhereAscend(clicks, ops, ops[t].window, t);
    }
  }

  lemma {:induction false} UnansweredBelow(trace: seq<State>, ops: seq<Op>, n: nat)
    requires n <= |ops| < |trace|
    ensures Ascending(Unanswered(trace, ops, n), n)
  {
    if n > 0 {
      UnansweredBelow(trace, ops, n - 1);
      NextClicksAscend(Unanswered(trace, ops, n - 1), trace[n - 1], ops, n - 1);
    }
  }

  /** The store with every unanswered prediction taken back: what both sides have agreed on. */
  function Base(st: State): View {
    Rewind(st.view, st.pending)
  }

  /**
   * Confirming is accepted exactly for the oldest unanswered click. It leaves what the client sees alone and
   * moves the agreed base from the view just before that click to the view just after it.
   */
  lemma ConfirmCommits(trace: seq<State>, ops: seq<Op>, n: nat)
    requires ClientRun(trace, ops) && n < |ops| && ops[n].Confirm?
    ensures |Unanswered(trace, ops, n)| == |trace[n].pending|
    ensures ConfirmVerdict(trace[n], ops[n].sequence) == Resolved <==>
            trace[n].pending != [] && trace[n].pending[0].sequence == ops[n].sequence
    ensures trace[n + 1].view == trace[n].view
    ensures if ConfirmVerdict(trace[n], ops[n].sequence) == Resolved then
              var t := Unanswered(trace, ops, n)[0];
              && t < n && ops[t].Click? && ops[t].sequence == ops[n].sequence
              && Base(trace[n]) == trace[t].view && Base(trace[n + 1]) == trace[t + 1].view
              && trace[n + 1].pending == trace[n].pending[1..]
            else trace[n + 1] == trace[n]
  {
    var st := trace[n];
    assert Step(st, ops[n], trace[n + 1]);
    UndoLog(trace, ops, n);
    UnansweredBelow(trace, ops, n);
    if st.pending != [] {
      assert Tracks(trace, ops, st, 0, Unanswered(trace, ops, n)[0]);
      assert st.pending[0..] == st.pending;
    }
  }

  // ----- A window whose clicks are gone -----

  ghost predicate NothingPendingIn(ps: seq<Pending>, window: int) {
    forall i :: 0 <= i < |ps| ==> ps[i].window != window
  }

  lemma {:induction false} ElsewhereHasNone(ps: seq<Pending>, window: int)
    ensures NothingPendingIn(Elsewhere(ps, window), window)
    decreases |ps|
  {
    if ps != [] {
      ElsewhereHasNone(ps[..|ps| - 1], window);
    }
  }

  lemma {:induction false} RewindElsewhere(view: View, ps: seq<Pending>, window: int)
    requires NothingPendingIn(ps, window)
    ensures window in Rewind(view, ps).menus <==> window in view.menus
    ensures window in view.menus ==> Rewind(view, ps).menus[window] == view.menus[window]
    decreases |ps|
  {
    if ps != [] {
      RewindElsewhere(Restore(view, ps[|ps| - 1]), ps[..|ps| - 1], window);
    }
  }

  ghost predicate SameMenu(a: View, b: View, window: int) {
    && (window in a.menus <==> window in b.menus)
    && (window in a.menus ==> a.menus[window] == b.menus[window])
  }

  lemma SlotsElsewhere(st: State, id: int, items: Slots, stateID: int, stateKnown: bool, st': State, window: int)
    requires WellFormed(st) && SlotsStep(st, id, items, stateID, stateKnown, st')
    ensures st'.pending == st.pending && (id != window ==> SameMenu(st.view, st'.view, window))
  {
    var tracked := TrackStep(st, id);
    assert tracked.pending == st.pending;
    assert id != window ==> SameMenu(st.view, tracked.view, window);
  }

  lemma ClickElsewhere(st: State, op: Op, st': State, window: int)
    requires op.Click? && op.window != window && Step(st, op, st') && NothingPendingIn(st.pending, window)
    ensures NothingPendingIn(st'.pending, window) && SameMenu(st.view, st'.view, window)
  {
    var p := TakeSnapshot(st.view, op.sequence, op.window, op.slots);
    var recorded := st'.(view := st'.view.(cursor := st.view.cursor), cursorSent := st.cursorSent);
    var st1 := if op.cursor.None? then st' else recorded;
    assert ClickStep(st, p, op.predicted, st1);
    if |st.pending| < MAX_PENDING && ItemsOf(op.predicted) != map[] {
      SlotsElsewhere(st.(pending := st.pending + [p]), op.window, ItemsOf(op.predicted), 0, false, st1, window);
    }
  }

  /** With nothing pending in a window, only the server can change it until it is clicked again. */
  lemma StepElsewhere(st: State, op: Op, st': State, window: int)
    requires Step(st, op, st') && NothingPendingIn(st.pending, window)
    requires !(op.Click? && op.window == window)
    ensures NothingPendingIn(st'.pending, window)
    ensures op.Click? || op.Confirm? || op.Reject? ==> SameMenu(st.view, st'.view, window)
  {
    match op
    case Click(_, _, _, _, _) => ClickElsewhere(st, op, st', window);
    case Reject(sequence) =>
      var at := IndexOf(st.pending, sequence);
      if at >= 0 {
        RewindElsewhere(st.view, st.pending[at..], window);
      }
    case ServerSlots(id, items, stateID, stateKnown) =>
      SlotsElsewhere(st, id, items, stateID, stateKnown, st', window);
    case Closed(other) => ElsewhereSubset(st.pending, other, window);
    case Superseded(other) => ElsewhereSubset(st.pending, other, window);
    case _ =>
  }

  lemma {:induction false} ElsewhereSubset(ps: seq<Pending>, other: int, window: int)
    requires NothingPendingIn(ps, window)
    ensures NothingPendingIn(Elsewhere(ps, other), window)
    decreases |ps|
  {
    if ps != [] {
      ElsewhereSubset(ps[..|ps| - 1], other, window);
    }
  }

  /** Operation i of the run is a step; naming it is what makes the run's quantifier speak of it. */
  ghost predicate Stepped(trace: seq<State>, ops: seq<Op>, i: nat) {
    i < |ops| < |trace| && Step(trace[i], ops[i], trace[i + 1])
  }

  ghost predicate Run(trace: seq<State>, ops: seq<Op>) {
    |trace| == |ops| + 1 && forall i: nat :: i < |ops| ==> Stepped(trace, ops, i)
  }

  /**
   * After a window is superseded, or closed while open, every later operation that is not a click in it - any
   * confirmation, any rejection, any click elsewhere, whatever the server does in between - leaves its slots
   * to the server: no old prediction or rollback reaches them.
   */
  lemma {:induction false} AnsweredWindowStaysTheServers(trace: seq<State>, ops: seq<Op>, window: int, n: nat)
    requires Run(trace, ops) && 1 <= n <= |ops|
    requires ops[0] == Superseded(window) || (ops[0] == Closed(window) && window in trace[0].view.menus)
    requires forall i :: 0 <= i < |ops| ==> !(ops[i].Click? && ops[i].window == window)
    ensures NothingPendingIn(trace[n].pending, window)
    ensures n < |ops| && (ops[n].Click? || ops[n].Confirm? || ops[n].Reject?) ==>
              SameMenu(trace[n].view, trace[n + 1].view, window)
  {
    assert Stepped(trace, ops, n - 1);
    if n == 1 {
      ElsewhereHasNone(trace[0].pending, window);
    } else {
      AnsweredWindowStaysTheServers(trace, ops, window, n - 1);
      StepElsewhere(trace[n - 1], ops[n - 1], trace[n], window);
    }
    if n < |ops| {
      assert Stepped(trace, ops, n);
      StepElsewhere(trace[n], ops[n], trace[n + 1], window);
    }
  }

  /**
   * Reopening an ID does not drop its clicks: a rejection that follows writes the old menu's content into the
   * new menu if and only if a rejected click names a slot of it with something to write.
   */
  lemma ReopenedMenuOverwrittenIff(st: State, sequence: int, window: int, slot: int)
    requires WellFormed(st) && window in st.view.menus && |st.view.menus| <= MAX_CONTAINERS
    requires IndexOf(st.pending, sequence) >= 0
    ensures var reopened := OpenedStep(st, window);
            var st' := RejectStep(reopened, sequence);
            var oldest := OldestRecord(st.pending[IndexOf(st.pending, sequence)..], window, slot);
            && reopened.pending == st.pending
            && window in st'.view.menus
            && (slot in st'.view.menus[window] <==> oldest.Some? && oldest.value.Some?)
  {
    var reopened := OpenedStep(st, window);
    assert (st.view.menus - {window}).Keys == st.view.menus.Keys - {window};
    assert |st.view.menus - {window}| == |st.view.menus.Keys - {window}|;
    RewindLook(reopened.view, st.pending[IndexOf(st.pending, sequence)..], window, slot);
  }
}
