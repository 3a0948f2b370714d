/** The mutable container store; every method is proved against the relations of `ClickLog`. */
module ContainerStore {
  import opened Choice
  import opened Options
  import opened Items
  import opened ClickLog

  /** One more item merged, or refused because the menu is full. */
  lemma MergeOne(before: set<int>, done: set<int>, slot: int, was: set<int>, now: set<int>, refused: bool)
    requires MergedKeys(before, done, was) && slot !in done
    requires refused <==> slot !in was && |was| >= MAX_SLOTS
    requires now == if refused then was else was + {slot}
    ensures MergedKeys(before, done + {slot}, now)
    ensures |(done + {slot}) - now| == |done - was| + if refused then 1 else 0
  {
    if refused {
      assert (done + {slot}) - was == (done - was) + {slot};
    } else {
      assert slot in was ==> was + {slot} == was;
      assert |was + {slot}| >= |was|;
      assert (done + {slot}) - (was + {slot}) == done - was;
    }
  }

  /** The items at `done` merged, having refused so many of them. */
  ghost predicate Merging(before: Slots, items: Slots, done: set<int>, now: Slots, refusals: nat) {
    && MergedKeys(before.Keys, done, now.Keys)
    && MergingValues(before, items, done, now)
    && refusals == |done - now.Keys|
  }

  ghost predicate MergingValues(before: Slots, items: Slots, done: set<int>, now: Slots) {
    forall s :: s in now ==> if s in done then s in items && now[s] == items[s] else s in before && now[s] == before[s]
  }

  lemma MergeOneMore(
    before: Slots, items: Slots, done: set<int>, slot: int, was: Slots, now: Slots, refused: bool, refusals: nat)
    requires slot in items && slot !in done && Merging(before, items, done, was, refusals)
    requires refused <==> slot !in was.Keys && |was.Keys| >= MAX_SLOTS
    requires now == if refused then was else was[slot := items[slot]]
    requires now.Keys == if refused then was.Keys else was.Keys + {slot}
    ensures Merging(before, items, done + {slot}, now, refusals + if refused then 1 else 0)
  {
    MergeOne(before.Keys, done, slot, was.Keys, now.Keys, refused);
    MergeOneValue(before, items, done, slot, was, now);
  }

  lemma MergeOneValue(before: Slots, items: Slots, done: set<int>, slot: int, was: Slots, now: Slots)
    requires slot in items && MergingValues(before, items, done, was)
    requires now == was[slot := items[slot]] || (now == was && slot !in was)
    ensures MergingValues(before, items, done + {slot}, now)
  {
  }

  /** Every item merged but those at `left`. */
  ghost predicate MergingBut(before: Slots, items: Slots, left: set<int>, now: Slots, refusals: nat) {
    Merging(before, items, items.Keys - left, now, refusals)
  }

  lemma NothingMerged(before: Slots, items: Slots)
    ensures MergingBut(before, items, items.Keys, before, 0)
  {
    assert items.Keys - items.Keys == {};
  }

  lemma OneLess(all: set<int>, left: set<int>, slot: int)
    requires left <= all && slot in left
    ensures all - (left - {slot}) == (all - left) + {slot}
  {
  }

  lemma MergeOneLess(
    before: Slots, items: Slots, left: set<int>, slot: int, was: Slots, now: Slots, refused: bool, refusals: nat)
    requires left <= items.Keys && slot in left && MergingBut(before, items, left, was, refusals)
    requires refused <==> slot !in was.Keys && |was.Keys| >= MAX_SLOTS
    requires now == if refused then was else was[slot := items[slot]]
    requires now.Keys == if refused then was.Keys else was.Keys + {slot}
    ensures MergingBut(before, items, left - {slot}, now, refusals + if refused then 1 else 0)
  {
    MergeOneMore(before, items, items.Keys - left, slot, was, now, refused, refusals);
    OneLess(items.Keys, left, slot);
  }

  lemma AllMerged(before: Slots, items: Slots, now: Slots, refusals: nat)
    requires MergingBut(before, items, {}, now, refusals)
    ensures Merged(before, items, now) && refusals == |items.Keys - now.Keys|
  {
    assert items.Keys - {} == items.Keys;
  }

  class Container {
    const id: int
    var slots: Slots
    var stateID: int
    var stateKnown: bool
    var droppedSlots: nat

    constructor (id: int)
      ensures this.id == id && slots == map[] && Info() == Meta(0, false, 0)
    {
      this.id := id;
      slots, stateID, stateKnown, droppedSlots := map[], 0, false, 0;
    }

    ghost function Info(): Meta
      reads this
    {
      Meta(stateID, stateKnown, droppedSlots)
    }

    /** The bounded merge, in the map's iteration order. */
    method Update(items: Slots, stateID: int, stateKnown: bool)
      modifies this
      ensures Merged(old(slots), items, slots)
      ensures Info() == MetaAfter(old(Info()), stateID, stateKnown, |items.Keys - slots.Keys|)
    {
      if stateKnown {
        this.stateID, this.stateKnown := stateID, true;
      }
      Merge(items);
    }

    method MergeItem(slot: int, item: Content) returns (refused: bool)
      modifies this`slots, this`droppedSlots
      ensures refused <==> slot !in old(slots).Keys && |old(slots).Keys| >= MAX_SLOTS
      ensures slots == if refused then old(slots) else old(slots)[slot := item]
      ensures slots.Keys == if refused then old(slots).Keys else old(slots).Keys + {slot}
      ensures droppedSlots == old(droppedSlots) + if refused then 1 else 0
    {
      refused := slot !in slots && |slots| >= MAX_SLOTS;
      if refused {
        droppedSlots := droppedSlots + 1;
      } else {
        slots := slots[slot := item];
      }
    }

    method Merge(items: Slots)
      modifies this`slots, this`droppedSlots
      ensures Merged(old(slots), items, slots)
      ensures droppedSlots == old(droppedSlots) + |items.Keys - slots.Keys|
    {
      ghost var before := slots;
      ghost var refusals := 0;
      var left := items.Keys;
      NothingMerged(before, items);
      while |left| > 0
        invariant left <= items.Keys && MergingBut(before, items, left, slots, refusals)
        invariant droppedSlots == old(droppedSlots) + refusals
        decreases |left|
      {
        var slot := Pick(left);
        ghost var was := slots;
        var refused := MergeItem(slot, items[slot]);
        MergeOneLess(before, items, left, slot, was, slots, refused, refusals);
        refusals := refusals + if refused then 1 else 0;
        left := left - {slot};
      }
      AllMerged(before, items, slots, refusals);
    }

    method PutBack(before: seq<SlotSnapshot>)
      modifies this`slots
      ensures slots == RestoreSlots(old(slots), before)
    {
      for i := 0 to |before|
        invariant slots == RestoreSlots(old(slots), before[..i])
      {
        var snapshot := before[i];
        assert before[..i + 1][..i] == before[..i];
        if !snapshot.known {
          slots := slots - {snapshot.slot};
        } else if snapshot.held {
          slots := slots[snapshot.slot := snapshot.item];
        } else {
          slots := slots[snapshot.slot := None];
        }
      }
      assert before[..|before|] == before;
    }
  }

  /** Of the first i records, the n kept have slid to where the slice starts; the rest have not moved. */
  ghost predicate Slid(cells: seq<Pending>, lo: nat, ps: seq<Pending>, window: int, i: nat, n: nat) {
    && i <= |ps| && lo + |ps| <= |cells|
    && n == |Elsewhere(ps[..i], window)| <= i
    && (forall k :: 0 <= k < n ==> cells[lo + k] == Elsewhere(ps[..i], window)[k])
    && forall k :: i <= k < |ps| ==> cells[lo + k] == ps[k]
  }

  lemma SlidMore(cells: seq<Pending>, lo: nat, ps: seq<Pending>, window: int, i: nat, n: nat)
    requires i < |ps| && Slid(cells, lo, ps, window, i, n)
    ensures if ps[i].window != window then Slid(cells[lo + n := ps[i]], lo, ps, window, i + 1, n + 1)
            else Slid(cells, lo, ps, window, i + 1, n)
  {
    assert ps[..i + 1][..i] == ps[..i];
  }

  lemma SlidAll(cells: seq<Pending>, lo: nat, ps: seq<Pending>, window: int, n: nat)
    requires Slid(cells, lo, ps, window, |ps|, n)
    ensures lo + n <= |cells| && cells[lo..lo + n] == Elsewhere(ps, window)
  {
    assert ps[..|ps|] == ps;
  }

  /**
   * The `pending` slice: buf[lo..hi] of a backing array that confirming re-slices and that closing or
   * superseding a window compacts in place.
   */
  class PendingSlice {
    ghost var items: seq<Pending>
    var buf: array<Pending>
    var lo: nat
    var hi: nat

    ghost predicate Valid()
      reads this, buf
    {
      lo <= hi <= buf.Length && items == buf[lo..hi]
    }

    constructor ()
      ensures Valid() && items == [] && fresh(buf)
    {
      buf := new Pending[0];
      lo, hi, items := 0, 0, [];
    }

    method Grow()
      requires Valid()
      modifies this`buf, this`lo, this`hi
      ensures Valid() && hi < buf.Length && fresh(buf)
    {
      var grown := new Pending[2 * (hi - lo) + 1];
      for i := 0 to hi - lo
        invariant Valid()
        invariant forall k :: 0 <= k < i ==> grown[k] == items[k]
        modifies grown
      {
        grown[i] := buf[lo + i];
      }
      buf, lo, hi := grown, 0, hi - lo;
    }

    /** In place while the backing array has room, else into a larger array. */
    method Append(p: Pending)
      requires Valid()
      modifies this, buf
      ensures Valid() && items == old(items) + [p]
      ensures buf == old(buf) || fresh(buf)
    {
      if hi == buf.Length {
        Grow();
      }
      buf[hi] := p;
      hi := hi + 1;
      items := items + [p];
    }

    /** The index of the first click with this sequence, or -1. */
    method Find(sequence: int) returns (at: int)
      requires Valid()
      ensures at == IndexOf(items, sequence)
    {
      IndexOfIsFirst(items, sequence);
      at := 0;
      while lo + at < hi
        invariant 0 <= at <= hi - lo
        invariant forall k :: 0 <= k < at ==> items[k].sequence != sequence
      {
        assert buf[lo + at] == items[at];
        if buf[lo + at].sequence == sequence {
          return;
        }
        at := at + 1;
      }
      return -1;
    }

    method At(i: nat) returns (p: Pending)
      requires Valid() && i < |items|
      ensures p == items[i]
    {
      p := buf[lo + i];
    }

    method DropFirst()
      requires Valid() && |items| > 0
      modifies this`lo, this`items
      ensures Valid() && items == old(items)[1..]
    {
      lo, items := lo + 1, items[1..];
    }

    method Truncate(n: nat)
      requires Valid() && n <= |items|
      modifies this`hi, this`items
      ensures Valid() && items == old(items)[..n]
    {
      hi, items := lo + n, items[..n];
    }

    /** The in-place filter: kept records slide down the same backing array. */
    method Compact(window: int)
      requires Valid()
      modifies this`hi, this`items, buf
      ensures Valid() && items == Elsewhere(old(items), window)
    {
      hi := Slide(buf, lo, hi, items, window);
      items := Elsewhere(items, window);
    }

    /** One record's turn: kept at place n, or passed over. */
    static method Settle(buf: array<Pending>, ghost lo: nat, i: nat, n: nat, ghost ps: seq<Pending>, window: int)
      returns (n': nat)
      requires lo <= n <= i < lo + |ps| && Slid(buf[..], lo, ps, window, i - lo, n - lo)
      modifies buf
      ensures lo <= n' <= i + 1 && Slid(buf[..], lo, ps, window, i + 1 - lo, n' - lo)
    {
      SlidMore(buf[..], lo, ps, window, i - lo, n - lo);
      ghost var cells := buf[..];
      var p := buf[i];
      assert p == cells[lo + (i - lo)];
      if p.window == window {
        return n;
      }
      buf[n] := p;
      assert buf[..] == cells[n := p];
      return n + 1;
    }

    static method Slide(buf: array<Pending>, lo: nat, hi: nat, ghost ps: seq<Pending>, window: int) returns (n: nat)
      requires lo <= hi <= buf.Length && ps == buf[lo..hi]
      modifies buf
      ensures lo <= n <= hi && buf[lo..n] == Elsewhere(ps, window)
    {
      n := lo;
      for i := lo to hi
        invariant lo <= n <= i && Slid(buf[..], lo, ps, window, i - lo, n - lo)
      {
        n := Settle(buf, lo, i, n, ps, window);
      }
      SlidAll(buf[..], lo, ps, window, n - lo);
      assert buf[lo..n] == buf[..][lo..n];
    }
  }

  class Containers {
    /** What the fields below stand for; no mutator reads it. */
    ghost var state: State

    var open: map<int, Container>
    var cursor: Content
    var cursorHeld: bool
    var cursorSent: bool
    // The unanswered clicks, oldest first.
    const pending: PendingSlice
    var droppedPending: nat
    var dropped: nat

    ghost var repr: set<object>

    ghost predicate Valid()
      reads this, repr
    {
      && this in repr && pending in repr && pending.buf in repr
      && (forall id :: id in open ==> open[id] in repr)
      && ValidParts()
    }

    ghost predicate ValidParts()
      reads this, pending, pending.buf, open.Values
    {
      && ValidRest()
      && open.Keys == state.view.menus.Keys == state.meta.Keys
      && (forall id :: id in open ==>
            && open[id].id == id
            && open[id].slots == state.view.menus[id]
            && open[id].Info() == state.meta[id])
    }

    /** The cursor, the queue and the counters are as `state` says. */
    ghost predicate ValidRest()
      reads this, pending, pending.buf
    {
      && pending.Valid()
      && (!cursorHeld ==> cursor == None)
      && state.view.cursor == Cursor(cursor, cursorHeld)
      && state.cursorSent == cursorSent
      && state.pending == pending.items
      && state.droppedPending == droppedPending
      && state.dropped == dropped
    }

    constructor ()
      ensures Valid() && fresh(repr)
      ensures state == State(View(map[], Cursor(None, false)), map[], false, [], 0, 0)
    {
      open, cursor, cursorHeld, cursorSent := map[], None, false, false;
      pending := new PendingSlice();
      droppedPending, dropped := 0, 0;
      state := State(View(map[], Cursor(None, false)), map[], false, [], 0, 0);
      new;
      repr := {this, pending, pending.buf};
    }

    method Track(id: int) returns (c: Container?)
      requires Valid()
      modifies this`open, this`dropped, this`state, this`repr
      ensures Valid() && fresh(repr - old(repr))
      ensures state == TrackStep(old(state), id)
      ensures if id in open then c == open[id] else c == null
    {
      assert |state.view.menus| == |open| by { assert state.view.menus.Keys == open.Keys; }
      if id in open {
        c := open[id];
      } else if |open| >= MAX_CONTAINERS {
        dropped, state := dropped + 1, TrackStep(state, id);
        c := null;
      } else {
        c := Create(id);
      }
    }

    method Create(id: int) returns (c: Container)
      requires Valid() && id !in open
      modifies this`open, this`state, this`repr
      ensures Valid() && fresh(repr - old(repr))
      ensures state == SetMenu(old(state), id, map[], Meta(0, false, 0))
      ensures id in open && c == open[id]
    {
      c := new Container(id);
      open, repr, state := open[id := c], repr + {c}, SetMenu(state, id, map[], Meta(0, false, 0));
    }

    method SlotsChanged(id: int, items: Slots, stateID: int, stateKnown: bool)
      requires Valid()
      modifies repr
      ensures Valid() && fresh(repr - old(repr))
      ensures SlotsStep(old(state), id, items, stateID, stateKnown, state)
    {
      var menu := Track(id);
      if menu != null {
        UpdateMenu(menu, items, stateID, stateKnown);
      }
    }

    method UpdateMenu(menu: Container, items: Slots, stateID: int, stateKnown: bool)
      requires Valid() && menu.id in open && open[menu.id] == menu
      modifies menu, this`state
      ensures Valid() && open == old(open)
      ensures menu.id in old(state).view.menus && menu.id in old(state).meta
      ensures Merged(old(state).view.menus[menu.id], items, menu.slots)
      ensures state == SetMenu(old(state), menu.id, menu.slots,
                               MetaAfter(old(state).meta[menu.id], stateID, stateKnown, |items.Keys - menu.slots.Keys|))
    {
      menu.Update(items, stateID, stateKnown);
      Refresh(menu);
    }

    /** What one changed menu now holds becomes what it stands for. */
    ghost method Refresh(menu: Container)
      requires this in repr && pending in repr && pending.buf in repr
      requires menu.id in open && open[menu.id] == menu && ValidBut(menu.id)
      requires forall id :: id in open ==> open[id] in repr
      modifies this`state
      ensures Valid() && state == SetMenu(old(state), menu.id, menu.slots, menu.Info())
    {
      state := SetMenu(state, menu.id, menu.slots, menu.Info());
    }

    /** Everything but one menu is as `state` says. */
    ghost predicate ValidBut(changed: int)
      reads this, pending, pending.buf, open.Values
    {
      && ValidRest()
      && open.Keys == state.view.menus.Keys == state.meta.Keys
      && (forall id :: id in open ==>
            && open[id].id == id
            && (id != changed ==> open[id].slots == state.view.menus[id] && open[id].Info() == state.meta[id]))
    }

    method CursorChanged(item: Content, held: bool)
      requires Valid()
      modifies this`cursor, this`cursorHeld, this`cursorSent, this`state
      ensures Valid()
      ensures state == CursorStep(old(state), item, held)
    {
      cursor, cursorHeld, cursorSent := item, held, true;
      if !held {
        cursor := None;
      }
      state := CursorStep(state, item, held);
    }

    method Snapshot(sequence: int, window: int, slots: seq<int>) returns (p: Pending)
      requires Valid()
      ensures p == TakeSnapshot(state.view, sequence, window, slots)
    {
      var before: seq<SlotSnapshot> := [];
      for i := 0 to |slots|
        invariant |before| == i
        invariant forall k :: 0 <= k < i ==> before[k] == SnapshotOf(state.view, window, slots[k])
      {
        var snapshot := SlotSnapshot(slots[i], None, false, false);
        if window in open {
          var menu := open[window];
          if slots[i] in menu.slots {
            var item := menu.slots[slots[i]];
            snapshot := snapshot.(item := item, known := true, held := item.Some?);
          }
        }
        before := before + [snapshot];
      }
      p := Pending(sequence, window, before, cursor, cursorHeld);
    }

    method Record(p: Pending)
      requires Valid()
      modifies this`state, this`repr, pending, pending.buf
      ensures Valid() && fresh(repr - old(repr))
      ensures state == old(state).(pending := old(state).pending + [p])
    {
      pending.Append(p);
      state, repr := state.(pending := state.pending + [p]), repr + {pending.buf};
    }

    method Click(p: Pending, predicted: seq<SlotSnapshot>)
      requires Valid()
      modifies repr
      ensures Valid() && fresh(repr - old(repr))
      ensures ClickStep(old(state), p, predicted, state)
    {
      if pending.hi - pending.lo >= MAX_PENDING {
        droppedPending := droppedPending + 1;
        state := state.(droppedPending := state.droppedPending + 1);
        return;
      }
      Record(p);
      var items := Collect(predicted);
      if |items| > 0 {
        SlotsChanged(p.window, items, 0, false);
      }
    }

    static method Collect(predicted: seq<SlotSnapshot>) returns (items: Slots)
      ensures items == ItemsOf(predicted)
    {
      items := map[];
      for i := 0 to |predicted|
        invariant items == ItemsOf(predicted[..i])
      {
        assert predicted[..i + 1][..i] == predicted[..i];
        var value := predicted[i].item;
        if !predicted[i].held {
          value := None;
        }
        items := items[predicted[i].slot := value];
      }
      assert predicted[..|predicted|] == predicted;
    }

    method Confirm(sequence: int) returns (verdict: Verdict)
      requires Valid()
      modifies pending, this`state
      ensures Valid()
      ensures verdict == ConfirmVerdict(old(state), sequence)
      ensures state == ConfirmStep(old(state), sequence)
    {
      var at := pending.Find(sequence);
      if at < 0 {
        return UnknownSequence;
      }
      if at > 0 {
        return OutOfOrder;
      }
      pending.DropFirst();
      state := state.(pending := state.pending[1..]);
      return Resolved;
    }

    method Reject(sequence: int) returns (verdict: Verdict)
      requires Valid()
      modifies repr
      ensures Valid() && repr == old(repr)
      ensures verdict == RejectVerdict(old(state), sequence)
      ensures state == RejectStep(old(state), sequence)
    {
      var at := pending.Find(sequence);
      if at < 0 {
        return UnknownSequence;
      }
      RestoreDownTo(at);
      Truncate(at);
      return Resolved;
    }

    method Truncate(n: nat)
      requires Valid() && n <= |state.pending|
      modifies this`state, pending
      ensures Valid() && state == old(state).(pending := old(state).pending[..n])
    {
      pending.Truncate(n);
      state := state.(pending := state.pending[..n]);
    }

    /** Restores the pending clicks from the newest down to the one at `at`. */
    method RestoreDownTo(at: nat)
      requires Valid() && at < |state.pending|
      modifies repr
      ensures Valid() && repr == old(repr) && unchanged(pending) && unchanged(pending.buf)
      ensures state == old(state).(view := Rewind(old(state).view, old(state).pending[at..]), cursorSent := true)
    {
      ghost var ps := state.pending[at..];
      var index := pending.hi - pending.lo;
      assert ps[..index - at] == ps;
      while index > at
        invariant at <= index <= |old(state).pending|
        invariant Valid() && repr == old(repr) && unchanged(pending) && unchanged(pending.buf)
        invariant Rewind(state.view, ps[..index - at]) == Rewind(old(state).view, ps)
        invariant state == old(state).(view := state.view,
                                       cursorSent := index < |old(state).pending| || old(state).cursorSent)
      {
        index := index - 1;
        assert ps[..index + 1 - at][..index - at] == ps[..index - at];
        var p := pending.At(index);
        RestoreOne(p);
      }
    }

    method RestoreOne(p: Pending)
      requires Valid()
      modifies repr
      ensures Valid() && repr == old(repr) && unchanged(pending) && unchanged(pending.buf)
      ensures state == old(state).(view := Restore(old(state).view, p), cursorSent := true)
    {
      if p.window in open {
        var menu := open[p.window];
        menu.PutBack(p.before);
        state := state.(view := state.view.(menus := state.view.menus[p.window := menu.slots]));
      }
      CursorChanged(p.cursorBefore, p.cursorHeld);
    }

    method Superseded(window: int)
      requires Valid()
      modifies this`state, pending, pending.buf
      ensures Valid()
      ensures state == SupersededStep(old(state), window)
    {
      pending.Compact(window);
      state := SupersededStep(state, window);
    }

    method Delete(id: int)
      requires Valid()
      modifies this`open, this`state
      ensures Valid() && state == RemoveMenu(old(state), id)
    {
      open, state := open - {id}, RemoveMenu(state, id);
    }

    method Closed(id: int)
      requires Valid()
      modifies this`open, this`state, pending, pending.buf
      ensures Valid()
      ensures state == ClosedStep(old(state), id)
    {
      if id !in open {
        return;
      }
      Delete(id);
      Superseded(id);
    }

    method Opened(id: int)
      requires Valid()
      modifies this`open, this`dropped, this`state, this`repr
      ensures Valid() && fresh(repr - old(repr))
      ensures state == OpenedStep(old(state), id)
    {
      Delete(id);
      var menu := Track(id);
    }
  }
}
