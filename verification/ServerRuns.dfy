/** What the undo log guarantees in runs where the server may do anything at any time. */
module ServerRuns {
  import opened Options
  import opened Items
  import opened ClickLog
  import opened ClickRuns

  const START := State(View(map[], Cursor(None, false)), map[], false, [], 0, 0)

  /** Any operations at all, from an empty queue. */
  ghost predicate AnyRun(trace: seq<State>, ops: seq<Op>) {
    Run(trace, ops) && trace[0].pending == []
  }

  /** The record is the one the click at position t of the run took. */
  ghost predicate TakenBy(trace: seq<State>, ops: seq<Op>, p: Pending, t: nat) {
    && t < |ops| < |trace| && ops[t].Click?
    && p == TakeSnapshot(trace[t].view, ops[t].sequence, ops[t].window, ops[t].slots)
  }

  ghost predicate AllTaken(trace: seq<State>, ops: seq<Op>, ps: seq<Pending>, clicks: seq<nat>) {
    |ps| == |clicks| && forall k :: 0 <= k < |ps| ==> TakenBy(trace, ops, ps[k], clicks[k])
  }

  lemma {:induction false} TakenElsewhere(
    trace: seq<State>, ops: seq<Op>, ps: seq<Pending>, clicks: seq<nat>, window: int)
    requires AllTaken(trace, ops, ps, clicks)
    ensures AllTaken(trace, ops, Elsewhere(ps, window), ClicksElsewhere(clicks, ops, window))
    decreases |ps|
  {
    if ps != [] {
      var n := |ps| - 1;
      assert TakenBy(trace, ops, ps[n], clicks[n]);
      TakenElsewhere(trace, ops, ps[..n], clicks[..n], window);
      if ps[n].window != window {
        TakenMore(trace, ops, Elsewhere(ps[..n], window), ClicksElsewhere(clicks[..n], ops, window), ps[n], clicks[n]);
      }
    }
  }

  lemma TakenMore(trace: seq<State>, ops: seq<Op>, ps: seq<Pending>, clicks: seq<nat>, p: Pending, t: nat)
    requires AllTaken(trace, ops, ps, clicks) && TakenBy(trace, ops, p, t)
    ensures AllTaken(trace, ops, ps + [p], clicks + [t])
  {
  }

  /** Only clicks, verdicts and the end of a window touch the queue. */
  lemma OtherOpsKeepQueue(st: State, op: Op, st': State)
    requires Step(st, op, st')
    requires op.ServerSlots? || op.ServerCursor? || op.Opened? || (op.Closed? && op.window !in st.view.menus)
    ensures st'.pending == st.pending
  {
    if op.ServerSlots? {
      SlotsElsewhere(st, op.window, op.items, op.stateID, op.stateKnown, st', op.window);
    }
  }

  lemma ClickQueues(st: State, op: Op, st': State)
    requires op.Click? && Step(st, op, st')
    ensures st'.pending == if |st.pending| >= MAX_PENDING then st.pending
                           else st.pending + [TakeSnapshot(st.view, op.sequence, op.window, op.slots)]
  {
    if |st.pending| < MAX_PENDING {
      if op.window in st.view.menus {
        QueuedInOpenMenu(st, op, st');
      } else {
        UnopenedClick(st, op, st');
      }
    }
  }

  lemma QueuedInOpenMenu(st: State, op: Op, st': State)
    requires op.Click? && op.window in st.view.menus && |st.pending| < MAX_PENDING && Step(st, op, st')
    ensures st'.pending == st.pending + [TakeSnapshot(st.view, op.sequence, op.window, op.slots)]
  {
    var p := TakeSnapshot(st.view, op.sequence, op.window, op.slots);
    var recorded := if op.cursor.None? then st'
                    else st'.(view := st'.view.(cursor := st.view.cursor), cursorSent := st.cursorSent);
    PredictionTouches(st, p, op.predicted, recorded);
  }

  lemma TakenStep(trace: seq<State>, ops: seq<Op>, n: nat, clicks: seq<nat>)
    requires AnyRun(trace, ops) && n < |ops| && AllTaken(trace, ops, trace[n].pending, clicks)
    ensures AllTaken(trace, ops, trace[n + 1].pending, NextClicks(clicks, trace[n], ops, n))
  {
    var st, op, st' := trace[n], ops[n], trace[n + 1];
    assert Stepped(trace, ops, n);
    match op
    case Click(_, _, _, _, _) => ClickQueues(st, op, st');
    case Confirm(_) =>
    case Reject(_) =>
    case Superseded(window) => TakenElsewhere(trace, ops, st.pending, clicks, window);
    case Closed(window) =>
      if window in st.view.menus {
        TakenElsewhere(trace, ops, st.pending, clicks, window);
      } else {
        OtherOpsKeepQueue(st, op, st');
      }
    case _ => OtherOpsKeepQueue(st, op, st');
  }

  /** The queue is the records of the unanswered clicks. */
  ghost predicate Queued(trace: seq<State>, ops: seq<Op>, n: nat)
    requires n <= |ops| < |trace|
  {
    AllTaken(trace, ops, trace[n].pending, Unanswered(trace, ops, n))
  }

  lemma QueuedNext(trace: seq<State>, ops: seq<Op>, n: nat)
    requires AnyRun(trace, ops) && n < |ops| && Queued(trace, ops, n)
    ensures Queued(trace, ops, n + 1)
  {
    TakenStep(trace, ops, n, Unanswered(trace, ops, n));
  }

  lemma QueuedFirst(trace: seq<State>, ops: seq<Op>)
    requires AnyRun(trace, ops)
    ensures Queued(trace, ops, 0)
  {
  }

  /** So it is in every run, whatever the server does. */
  lemma QueueIsUnanswered(trace: seq<State>, ops: seq<Op>, n: nat)
    requires AnyRun(trace, ops) && n <= |ops|
    ensures Queued(trace, ops, n)
  {
    QueuedFirst(trace, ops);
    for k := 0 to n
      invariant Queued(trace, ops, k)
    {
      QueuedNext(trace, ops, k);
    }
  }

  // ----- What a rejection restores, slot by slot -----

  /** The first of these clicks that named a slot of a window. */
  ghost function OldestNaming(ops: seq<Op>, clicks: seq<nat>, window: int, slot: int): Option<nat> {
    if clicks == [] then None
    else if ClickIn(ops, clicks[0], window) && slot in ops[clicks[0]].slots then Some(clicks[0])
    else OldestNaming(ops, clicks[1..], window, slot)
  }

  lemma {:induction false} OldestNamingIs(
    trace: seq<State>, ops: seq<Op>, ps: seq<Pending>, clicks: seq<nat>, window: int, slot: int)
    requires AllTaken(trace, ops, ps, clicks)
    ensures var t := OldestNaming(ops, clicks, window, slot);
            && (t.Some? ==> t.value < |trace|)
            && OldestRecord(ps, window, slot) ==
               if t.None? then None else Some(SlotIn(trace[t.value].view, window, slot))
  {
    if ps != [] {
      assert TakenBy(trace, ops, ps[0], clicks[0]);
      var op := ops[clicks[0]];
      RecordOfSnapshot(trace[clicks[0]].view, op.sequence, op.window, op.slots, slot);
      OldestNamingIs(trace, ops, ps[1..], clicks[1..], window, slot);
    }
  }

  /**
   * Rejecting a click, whatever clicks, verdicts and server updates the run holds: the cursor is again as it was just
   * before the rejected click, the older clicks stay pending, no menu opens or closes; a sequence nobody waits for
   * changes nothing.
   */
  lemma CursorInAnyRun(trace: seq<State>, ops: seq<Op>, n: nat)
    requires AnyRun(trace, ops) && n < |ops| && ops[n].Reject?
    ensures var at := IndexOf(trace[n].pending, ops[n].sequence);
            var clicks := Unanswered(trace, ops, n);
            if at < 0 then trace[n + 1] == trace[n]
            else
              && at < |clicks| == |trace[n].pending| && clicks[at] < n && ops[clicks[at]].Click?
              && ops[clicks[at]].sequence == ops[n].sequence
              && trace[n + 1].pending == trace[n].pending[..at] && Unanswered(trace, ops, n + 1) == clicks[..at]
              && trace[n + 1].view.menus.Keys == trace[n].view.menus.Keys
              && trace[n + 1].view.cursor == trace[clicks[at]].view.cursor
  {
    var at := IndexOf(trace[n].pending, ops[n].sequence);
    assert Stepped(trace, ops, n);
    if at >= 0 {
      var ps, clicks := trace[n].pending, Unanswered(trace, ops, n);
      QueueIsUnanswered(trace, ops, n);
      UnansweredBelow(trace, ops, n);
      IndexOfIsFirst(ps, ops[n].sequence);
      assert TakenBy(trace, ops, ps[at], clicks[at]);
      assert Stepped(trace, ops, clicks[at]);
      RewindKeepsMenus(trace[n].view, ps[at..]);
    }
  }

  /** Rolling back opens and closes nothing, and the oldest record decides the cursor. */
  lemma {:induction false} RewindKeepsMenus(view: View, ps: seq<Pending>)
    ensures Rewind(view, ps).menus.Keys == view.menus.Keys
    ensures ps != [] ==> Rewind(view, ps).cursor == CursorOf(ps[0].cursorBefore, ps[0].cursorHeld)
    decreases |ps|
  {
    if ps != [] {
      RewindKeepsMenus(Restore(view, ps[|ps| - 1]), ps[..|ps| - 1]);
    }
  }

  /**
   * And slot by slot: a slot gets back what it showed just before the oldest rejected click naming it, and keeps its
   * content when none does.
   */
  lemma RejectInAnyRun(trace: seq<State>, ops: seq<Op>, n: nat, window: int, slot: int)
    requires AnyRun(trace, ops) && n < |ops| && ops[n].Reject? && window in trace[n].view.menus
    ensures var at := IndexOf(trace[n].pending, ops[n].sequence);
            var clicks := Unanswered(trace, ops, n);
            if at < 0 then trace[n + 1] == trace[n]
            else
              && at < |clicks| == |trace[n].pending| && clicks[at] < n && ops[clicks[at]].Click?
              && ops[clicks[at]].sequence == ops[n].sequence
              && trace[n + 1].pending == trace[n].pending[..at]
              && trace[n + 1].view.menus.Keys == trace[n].view.menus.Keys
              && trace[n + 1].view.cursor == trace[clicks[at]].view.cursor
              && var oldest := OldestNaming(ops, clicks[at..], window, slot);
                 && (oldest.Some? ==> oldest.value < |trace|)
                 && SlotIn(trace[n + 1].view, window, slot) ==
                    if oldest.None? then SlotIn(trace[n].view, window, slot)
                    else SlotIn(trace[oldest.value].view, window, slot)
  {
    var at := IndexOf(trace[n].pending, ops[n].sequence);
    assert Stepped(trace, ops, n);
    CursorInAnyRun(trace, ops, n);
    if at >= 0 {
      var ps, clicks := trace[n].pending, Unanswered(trace, ops, n);
      QueueIsUnanswered(trace, ops, n);
      assert AllTaken(trace, ops, ps[at..], clicks[at..]);
      RewindLook(trace[n].view, ps[at..], window, slot);
      OldestNamingIs(trace, ops, ps[at..], clicks[at..], window, slot);
    }
  }

  /** Confirming, in any run: accepted exactly for the oldest click, of which only the record goes. */
  lemma ConfirmInAnyRun(trace: seq<State>, ops: seq<Op>, n: nat)
    requires AnyRun(trace, ops) && n < |ops| && ops[n].Confirm?
    ensures var clicks := Unanswered(trace, ops, n);
            && trace[n + 1].view == trace[n].view
            && (ConfirmVerdict(trace[n], ops[n].sequence) == Resolved <==>
                clicks != [] && clicks[0] < |ops| && ops[clicks[0]].Click?
                && ops[clicks[0]].sequence == ops[n].sequence)
            && Unanswered(trace, ops, n + 1) ==
               if ConfirmVerdict(trace[n], ops[n].sequence) == Resolved then clicks[1..] else clicks
  {
    QueueIsUnanswered(trace, ops, n);
    assert Stepped(trace, ops, n);
    var ps, clicks := trace[n].pending, Unanswered(trace, ops, n);
    if ps != [] {
      assert TakenBy(trace, ops, ps[0], clicks[0]);
    }
  }

  // ----- One slot that the server leaves alone -----

  /** What a slot shows once these records are rolled back over a view. */
  function RolledBack(view: View, ps: seq<Pending>, window: int, slot: int): Option<Content> {
    var oldest := OldestRecord(ps, window, slot);
    if oldest.Some? then oldest.value else SlotIn(view, window, slot)
  }

  lemma {:induction false} OldestConcat(a: seq<Pending>, b: seq<Pending>, window: int, slot: int)
    ensures OldestRecord(a + b, window, slot) ==
            if OldestRecord(a, window, slot).Some? then OldestRecord(a, window, slot) else OldestRecord(b, window, slot)
  {
    if a == [] {
      assert a + b == b;
    } else {
      assert (a + b)[0] == a[0] && (a + b)[1..] == a[1..] + b;
      OldestConcat(a[1..], b, window, slot);
    }
  }

  lemma {:induction false} ElsewhereConcat(a: seq<Pending>, b: seq<Pending>, other: int)
    ensures Elsewhere(a + b, other) == Elsewhere(a, other) + Elsewhere(b, other)
    decreases |b|
  {
    if b == [] {
      assert a + b == a;
    } else {
      var init := b[..|b| - 1];
      assert (a + b)[..|a + b| - 1] == a + init;
      ElsewhereConcat(a, init, other);
    }
  }

  lemma {:induction false} ClicksElsewhereConcat(a: seq<nat>, b: seq<nat>, ops: seq<Op>, other: int)
    ensures ClicksElsewhere(a + b, ops, other) == ClicksElsewhere(a, ops, other) + ClicksElsewhere(b, ops, other)
    decreases |b|
  {
    if b == [] {
      assert a + b == a;
    } else {
      var init := b[..|b| - 1];
      assert (a + b)[..|a + b| - 1] == a + init;
      ClicksElsewhereConcat(a, init, ops, other);
    }
  }

  lemma {:induction false} OldestElsewhere(ps: seq<Pending>, other: int, window: int, slot: int)
    requires other != window
    ensures OldestRecord(Elsewhere(ps, other), window, slot) == OldestRecord(ps, window, slot)
    decreases |ps|
  {
    if ps != [] {
      var init, last := ps[..|ps| - 1], ps[|ps| - 1];
      OldestElsewhere(init, other, window, slot);
      assert init + [last] == ps;
      OldestConcat(init, [last], window, slot);
      OldestConcat(Elsewhere(init, other), if last.window != other then [last] else [], window, slot);
    }
  }

  /** From the click at position t on, the operation leaves the slot to clicks and verdicts. */
  ghost predicate LeavesSlot(op: Op, window: int, slot: int) {
    match op
    case Click(_, w, _, _, _) => w == window ==> Covers(op)
    case ServerSlots(w, items, _, _) => w == window ==> slot !in items
    case Opened(w) => w != window
    case Closed(w) => w != window
    case Superseded(w) => w != window
    case _ => true
  }

  /** A recorded click, undone, leaves the slot as it found it. */
  lemma ClickRolledBack(st: State, op: Op, st': State, window: int, slot: int)
    requires op.Click? && Step(st, op, st') && LeavesSlot(op, window, slot)
    requires |st.pending| < MAX_PENDING && window in st.view.menus
    ensures window in st'.view.menus
    ensures RolledBack(st'.view, [TakeSnapshot(st.view, op.sequence, op.window, op.slots)], window, slot) ==
            SlotIn(st.view, window, slot)
  {
    var p := TakeSnapshot(st.view, op.sequence, op.window, op.slots);
    assert [p][1..] == [] && OldestRecord([p][1..], window, slot) == None;
    RecordOfSnapshot(st.view, op.sequence, op.window, op.slots, slot);
    if op.window == window {
      UncoveredKept(st, op, st', slot);
    } else {
      OtherWindowKept(st, op, st', window);
    }
  }

  lemma UncoveredKept(st: State, op: Op, st': State, slot: int)
    requires op.Click? && Step(st, op, st') && Covers(op)
    requires |st.pending| < MAX_PENDING && op.window in st.view.menus
    ensures op.window in st'.view.menus
    ensures slot !in op.slots ==> SlotIn(st'.view, op.window, slot) == SlotIn(st.view, op.window, slot)
  {
    var p := TakeSnapshot(st.view, op.sequence, op.window, op.slots);
    var recorded := if op.cursor.None? then st'
                    else st'.(view := st'.view.(cursor := st.view.cursor), cursorSent := st.cursorSent);
    PredictionTouches(st, p, op.predicted, recorded);
    if slot !in op.slots {
      UncoveredIsNotPredicted(op, slot);
    }
  }

  lemma OtherWindowKept(st: State, op: Op, st': State, window: int)
    requires op.Click? && op.window != window && Step(st, op, st')
    ensures SameMenu(st.view, st'.view, window)
  {
    var p := TakeSnapshot(st.view, op.sequence, op.window, op.slots);
    var st1 := if op.cursor.None? then st'
               else st'.(view := st'.view.(cursor := st.view.cursor), cursorSent := st.cursorSent);
    assert ClickStep(st, p, op.predicted, st1);
    if |st.pending| < MAX_PENDING && ItemsOf(op.predicted) != map[] {
      SlotsElsewhere(st.(pending := st.pending + [p]), op.window, ItemsOf(op.predicted), 0, false, st1, window);
    }
  }

  lemma ServerLeavesSlot(st: State, op: Op, st': State, window: int, slot: int)
    requires op.ServerSlots? && Step(st, op, st') && LeavesSlot(op, window, slot) && window in st.view.menus
    ensures window in st'.view.menus && SlotIn(st'.view, window, slot) == SlotIn(st.view, window, slot)
  {
    SlotsElsewhere(st, op.window, op.items, op.stateID, op.stateKnown, st', window);
  }

  /**
   * The click at position t is still unanswered, as number `at` of the queue, and rolling back from it gives the
   * slot back as it was just before it.
   */
  ghost predicate Due(trace: seq<State>, ops: seq<Op>, j: nat, t: nat, at: nat, window: int, slot: int)
    requires j <= |ops| < |trace|
  {
    && t < |trace|
    && at < |trace[j].pending| == |Unanswered(trace, ops, j)| && Unanswered(trace, ops, j)[at] == t
    && window in trace[j].view.menus
    && RolledBack(trace[j].view, trace[j].pending[at..], window, slot) == SlotIn(trace[t].view, window, slot)
  }

  lemma DueAfterClick(trace: seq<State>, ops: seq<Op>, j: nat, t: nat, at: nat, window: int, slot: int)
    requires AnyRun(trace, ops) && j < |ops| && ops[j].Click? && LeavesSlot(ops[j], window, slot)
    requires Due(trace, ops, j, t, at, window, slot)
    ensures Due(trace, ops, j + 1, t, at, window, slot)
  {
    var st, op, st' := trace[j], ops[j], trace[j + 1];
    assert Stepped(trace, ops, j);
    ClickQueues(st, op, st');
    if |st.pending| < MAX_PENDING {
      var p := TakeSnapshot(st.view, op.sequence, op.window, op.slots);
      ClickRolledBack(st, op, st', window, slot);
      assert st'.pending[at..] == st.pending[at..] + [p];
      OldestConcat(st.pending[at..], [p], window, slot);
    }
  }

  lemma DueAfterConfirm(trace: seq<State>, ops: seq<Op>, j: nat, t: nat, at: nat, window: int, slot: int)
    returns (at': nat)
    requires AnyRun(trace, ops) && j < |ops| && ops[j].Confirm? && t in Unanswered(trace, ops, j + 1)
    requires Due(trace, ops, j, t, at, window, slot)
    ensures Due(trace, ops, j + 1, t, at', window, slot)
  {
    var st, clicks := trace[j], Unanswered(trace, ops, j);
    assert Stepped(trace, ops, j);
    at' := at;
    if ConfirmVerdict(st, ops[j].sequence) == Resolved {
      UnansweredBelow(trace, ops, j);
      at' :| 0 <= at' < |clicks[1..]| && clicks[1..][at'] == t;
      assert clicks[at' + 1] == t && at == at' + 1;
      assert st.pending[1..][at'..] == st.pending[at..];
    }
  }

  lemma DueAfterReject(trace: seq<State>, ops: seq<Op>, j: nat, t: nat, at: nat, window: int, slot: int)
    requires AnyRun(trace, ops) && j < |ops| && ops[j].Reject? && t in Unanswered(trace, ops, j + 1)
    requires Due(trace, ops, j, t, at, window, slot)
    ensures Due(trace, ops, j + 1, t, at, window, slot)
  {
    var st, clicks := trace[j], Unanswered(trace, ops, j);
    var from := IndexOf(st.pending, ops[j].sequence);
    assert Stepped(trace, ops, j);
    if from >= 0 {
      UnansweredBelow(trace, ops, j);
      var k :| 0 <= k < |clicks[..from]| && clicks[..from][k] == t;
      assert at == k < from;
      RolledBackTwice(st.view, st.pending, at, from, window, slot);
    }
  }

  /** Rolling back the newer records and then the older ones is rolling back all of them. */
  lemma RolledBackTwice(view: View, ps: seq<Pending>, at: nat, from: nat, window: int, slot: int)
    requires at <= from <= |ps| && window in view.menus
    ensures window in Rewind(view, ps[from..]).menus
    ensures RolledBack(Rewind(view, ps[from..]), ps[..from][at..], window, slot) ==
            RolledBack(view, ps[at..], window, slot)
  {
    RewindLook(view, ps[from..], window, slot);
    assert ps[at..] == ps[..from][at..] + ps[from..];
    OldestConcat(ps[..from][at..], ps[from..], window, slot);
  }

  /** Where the click at position t ends up among those that remain, and what then follows it. */
  lemma DropKeepsSuffix(
    trace: seq<State>, ops: seq<Op>, ps: seq<Pending>, clicks: seq<nat>, at: nat, other: int) returns (at': nat)
    requires AllTaken(trace, ops, ps, clicks) && at < |clicks| && !ClickIn(ops, clicks[at], other)
    ensures at' < |ClicksElsewhere(clicks, ops, other)| == |Elsewhere(ps, other)|
    ensures ClicksElsewhere(clicks, ops, other)[at'] == clicks[at]
    ensures Elsewhere(ps, other)[at'..] == Elsewhere(ps[at..], other)
  {
    var older, newer := ps[..at], ps[at..];
    assert ps == older + newer && clicks == clicks[..at] + clicks[at..];
    ElsewhereConcat(older, newer, other);
    ClicksElsewhereConcat(clicks[..at], clicks[at..], ops, other);
    TakenElsewhere(trace, ops, ps, clicks, other);
    TakenElsewhere(trace, ops, older, clicks[..at], other);
    KeptFirst(clicks[at..], ops, other);
    at' := |Elsewhere(older, other)|;
  }

  /** Dropping another window's clicks moves the click's number and nothing else. */
  lemma DueAfterDropping(
    trace: seq<State>, ops: seq<Op>, j: nat, t: nat, at: nat, window: int, slot: int, other: int) returns (at': nat)
    requires AnyRun(trace, ops) && j < |ops| && other != window && t in Unanswered(trace, ops, j + 1)
    requires ops[j] == Superseded(other) || (ops[j] == Closed(other) && other in trace[j].view.menus)
    requires Due(trace, ops, j, t, at, window, slot)
    ensures Due(trace, ops, j + 1, t, at', window, slot)
  {
    var ps, clicks := trace[j].pending, Unanswered(trace, ops, j);
    assert Stepped(trace, ops, j);
    QueueIsUnanswered(trace, ops, j);
    DroppedElsewhere(clicks, ops, other, t);
    at' := DropKeepsSuffix(trace, ops, ps, clicks, at, other);
    OldestElsewhere(ps[at..], other, window, slot);
  }

  lemma {:induction false} DroppedElsewhere(clicks: seq<nat>, ops: seq<Op>, other: int, t: nat)
    requires t in ClicksElsewhere(clicks, ops, other)
    ensures !ClickIn(ops, t, other)
    decreases |clicks|
  {
    var last := clicks[|clicks| - 1];
    if t != last || ClickIn(ops, last, other) {
      DroppedElsewhere(clicks[..|clicks| - 1], ops, other, t);
    }
  }

  lemma KeptFirst(clicks: seq<nat>, ops: seq<Op>, other: int)
    requires clicks != [] && !ClickIn(ops, clicks[0], other)
    ensures ClicksElsewhere(clicks, ops, other) != [] && ClicksElsewhere(clicks, ops, other)[0] == clicks[0]
  {
    assert clicks == [clicks[0]] + clicks[1..];
    ClicksElsewhereConcat([clicks[0]], clicks[1..], ops, other);
    assert [clicks[0]][..0] == [];
    assert ClicksElsewhere([clicks[0]], ops, other) == [clicks[0]];
  }

  lemma DueAfterServer(trace: seq<State>, ops: seq<Op>, j: nat, t: nat, at: nat, window: int, slot: int)
    requires AnyRun(trace, ops) && j < |ops| && LeavesSlot(ops[j], window, slot)
    requires || ops[j].ServerSlots? || ops[j].ServerCursor? || ops[j].Opened?
             || (ops[j].Closed? && ops[j].window !in trace[j].view.menus)
    requires Due(trace, ops, j, t, at, window, slot)
    ensures Due(trace, ops, j + 1, t, at, window, slot)
  {
    assert Stepped(trace, ops, j);
    OtherOpsKeepQueue(trace[j], ops[j], trace[j + 1]);
    if ops[j].ServerSlots? {
      ServerLeavesSlot(trace[j], ops[j], trace[j + 1], window, slot);
    }
  }

  lemma DueNext(trace: seq<State>, ops: seq<Op>, j: nat, t: nat, at: nat, window: int, slot: int)
    returns (at': nat)
    requires AnyRun(trace, ops) && j < |ops| && LeavesSlot(ops[j], window, slot)
    requires t in Unanswered(trace, ops, j + 1) && Due(trace, ops, j, t, at, window, slot)
    ensures Due(trace, ops, j + 1, t, at', window, slot)
  {
    at' := at;
    match ops[j]
    case Click(_, _, _, _, _) => DueAfterClick(trace, ops, j, t, at, window, slot);
    case Confirm(_) => at' := DueAfterConfirm(trace, ops, j, t, at, window, slot);
    case Reject(_) => DueAfterReject(trace, ops, j, t, at, window, slot);
    case Superseded(other) => at' := DueAfterDropping(trace, ops, j, t, at, window, slot, other);
    case Closed(other) =>
      if other in trace[j].view.menus {
        at' := DueAfterDropping(trace, ops, j, t, at, window, slot, other);
      } else {
        DueAfterServer(trace, ops, j, t, at, window, slot);
      }
    case _ => DueAfterServer(trace, ops, j, t, at, window, slot);
  }

  /** The click itself, just made. */
  lemma DueFirst(trace: seq<State>, ops: seq<Op>, t: nat, window: int, slot: int) returns (at: nat)
    requires AnyRun(trace, ops) && t < |ops| && LeavesSlot(ops[t], window, slot)
    requires window in trace[t].view.menus && t in Unanswered(trace, ops, t + 1)
    ensures Due(trace, ops, t + 1, t, at, window, slot)
  {
    var st, op, clicks := trace[t], ops[t], Unanswered(trace, ops, t);
    assert Stepped(trace, ops, t);
    UnansweredBelow(trace, ops, t);
    OnlyNewClickIsNew(clicks, st, ops, t);
    QueueIsUnanswered(trace, ops, t);
    ClickQueues(st, op, trace[t + 1]);
    ClickRolledBack(st, op, trace[t + 1], window, slot);
    at := |clicks|;
    assert trace[t + 1].pending[at..] == [TakeSnapshot(st.view, op.sequence, op.window, op.slots)];
  }

  lemma OnlyNewClickIsNew(clicks: seq<nat>, st: State, ops: seq<Op>, t: nat)
    requires t < |ops| && Ascending(clicks, t)
    ensures t in NextClicks(clicks, st, ops, t) ==> ops[t].Click? && |st.pending| < MAX_PENDING
    ensures forall x :: x in NextClicks(clicks, st, ops, t) && x != t ==> x in clicks
  {
    if ops[t].Closed? || ops[t].Superseded? {
      forall x | x in ClicksElsewhere(clicks, ops, ops[t].window)
        ensures x in clicks
      {
        ElsewhereWasThere(clicks, ops, ops[t].window, x);
      }
    }
  }

  lemma {:induction false} ElsewhereWasThere(clicks: seq<nat>, ops: seq<Op>, window: int, x: nat)
    requires x in ClicksElsewhere(clicks, ops, window)
    ensures x in clicks
    decreases |clicks|
  {
    if x != clicks[|clicks| - 1] {
      ElsewhereWasThere(clicks[..|clicks| - 1], ops, window, x);
    }
  }

  /** A click that is unanswered now was unanswered all along. */
  lemma {:induction false} UnansweredSince(trace: seq<State>, ops: seq<Op>, t: nat, j: nat, n: nat)
    requires t < j <= n <= |ops| < |trace| && t in Unanswered(trace, ops, n)
    ensures t in Unanswered(trace, ops, j)
    decreases n
  {
    if j < n {
      UnansweredBelow(trace, ops, n - 1);
      OnlyNewClickIsNew(Unanswered(trace, ops, n - 1), trace[n - 1], ops, n - 1);
      UnansweredSince(trace, ops, t, j, n - 1);
    }
  }

  lemma DueThroughout(trace: seq<State>, ops: seq<Op>, t: nat, n: nat, window: int, slot: int) returns (at: nat)
    requires AnyRun(trace, ops) && t < n <= |ops| && t in Unanswered(trace, ops, n)
    requires window in trace[t].view.menus && forall j :: t <= j < n ==> LeavesSlot(ops[j], window, slot)
    ensures Due(trace, ops, n, t, at, window, slot)
  {
    UnansweredSince(trace, ops, t, t + 1, n);
    at := DueFirst(trace, ops, t, window, slot);
    at := DueFrom(trace, ops, t, t + 1, n, at, window, slot);
  }

  lemma {:induction false} DueFrom(
    trace: seq<State>, ops: seq<Op>, t: nat, j: nat, n: nat, at: nat, window: int, slot: int) returns (at': nat)
    requires AnyRun(trace, ops) && t < j <= n <= |ops| && t in Unanswered(trace, ops, n)
    requires forall i :: t <= i < n ==> LeavesSlot(ops[i], window, slot)
    requires Due(trace, ops, j, t, at, window, slot)
    ensures Due(trace, ops, n, t, at', window, slot)
    decreases n - j
  {
    if j == n {
      return at;
    }
    UnansweredSince(trace, ops, t, j + 1, n);
    at' := DueNext(trace, ops, j, t, at, window, slot);
    at' := DueFrom(trace, ops, t, j + 1, n, at', window, slot);
  }

  /**
   * In any run, rejecting a click puts a slot of any window that was open back to what it showed just before that
   * click, unless the server described that slot, or opened, closed or superseded that window, in between - and
   * whatever it did to every other slot and window.
   */
  lemma RejectRestoresSlot(trace: seq<State>, ops: seq<Op>, n: nat, window: int, slot: int)
    requires AnyRun(trace, ops) && n < |ops| && ops[n].Reject? && IndexOf(trace[n].pending, ops[n].sequence) >= 0
    ensures var at, clicks := IndexOf(trace[n].pending, ops[n].sequence), Unanswered(trace, ops, n);
            && at < |clicks| && clicks[at] < n
            && var t := clicks[at];
               window in trace[t].view.menus && (forall j :: t <= j < n ==> LeavesSlot(ops[j], window, slot)) ==>
                 && window in trace[n + 1].view.menus
                 && SlotIn(trace[n + 1].view, window, slot) == SlotIn(trace[t].view, window, slot)
  {
    QueueIsUnanswered(trace, ops, n);
    UnansweredBelow(trace, ops, n);
    assert Stepped(trace, ops, n);
    var from, clicks := IndexOf(trace[n].pending, ops[n].sequence), Unanswered(trace, ops, n);
    var t := clicks[from];
    if window in trace[t].view.menus && forall j :: t <= j < n ==> LeavesSlot(ops[j], window, slot) {
      var at := DueThroughout(trace, ops, t, n, window, slot);
      assert at == from;
      RewindLook(trace[n].view, trace[n].pending[from..], window, slot);
    }
  }

  /** From the click on, the operation leaves the whole window to clicks and verdicts. */
  ghost predicate LeavesWindow(op: Op, window: int) {
    match op
    case Click(_, w, _, _, _) => w == window ==> Covers(op)
    case ServerSlots(w, _, _, _) => w != window
    case Opened(w) => w != window
    case Closed(w) => w != window
    case Superseded(w) => w != window
    case _ => true
  }

  /** So a window the server left alone gets back every slot, absence included, whatever happened to other windows. */
  lemma RejectRestoresWindow(trace: seq<State>, ops: seq<Op>, n: nat, window: int)
    requires AnyRun(trace, ops) && n < |ops| && ops[n].Reject? && IndexOf(trace[n].pending, ops[n].sequence) >= 0
    ensures var at, clicks := IndexOf(trace[n].pending, ops[n].sequence), Unanswered(trace, ops, n);
            && at < |clicks| && clicks[at] < n
            && var t := clicks[at];
               window in trace[t].view.menus && (forall j :: t <= j < n ==> LeavesWindow(ops[j], window)) ==>
                 && window in trace[n + 1].view.menus
                 && trace[n + 1].view.menus[window] == trace[t].view.menus[window]
  {
    RejectRestoresSlot(trace, ops, n, window, 0);
    var t := Unanswered(trace, ops, n)[IndexOf(trace[n].pending, ops[n].sequence)];
    if window in trace[t].view.menus && forall j :: t <= j < n ==> LeavesWindow(ops[j], window) {
      assert forall j, slot :: t <= j < n ==> LeavesSlot(ops[j], window, slot);
      forall slot
        ensures SlotIn(trace[n + 1].view, window, slot) == SlotIn(trace[t].view, window, slot)
      {
        RejectRestoresSlot(trace, ops, n, window, slot);
      }
      assert forall j :: t <= j < n ==> LeavesSlot(ops[j], window, 0);
      var before, after := trace[t].view.menus[window], trace[n + 1].view.menus[window];
      forall slot
        ensures Look(after, slot) == Look(before, slot)
      {
        assert SlotIn(trace[n + 1].view, window, slot) == SlotIn(trace[t].view, window, slot);
      }
      LookExtensional(after, before);
    }
  }
}
