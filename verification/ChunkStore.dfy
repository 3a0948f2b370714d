/** The mutable chunk store, proved against one value per block position. */
module ChunkStore {
  import opened Options
  import opened ChunkSections

  // ----- What one block position sees of an operation -----

  datatype Op =
    | Load(column: ChunkPos, data: seq<SectionData>)
    | Unload(column: ChunkPos)
    | Change(change: BlockChange)

  /** The last of the sections sent that has this index. */
  function Sent(data: seq<SectionData>, y: int): Option<SectionData>
    decreases |data|
  {
    if data == [] then None
    else if data[|data| - 1].y == y then Some(data[|data| - 1])
    else Sent(data[..|data| - 1], y)
  }

  /**
   * The flat map, one position at a time: loading replaces what the sent sections decode to, unloading forgets
   * the column, and a change replaces the state of a position that has one and is dropped elsewhere.
   */
  function Next(before: Option<u32>, op: Op, p: BlockPos): Option<u32> {
    match op
    case Load(column, data) =>
      var sent := Sent(data, SectionIndex(p.y));
      if ColumnOf(p) == column && sent.Some?
      then StateIn(DecodeWith(sent.value.decode, sent.value.raw), IndexOf(p)) else before
    case Unload(column) => if ColumnOf(p) == column then None else before
    case Change(change) => if p == change.pos && before.Some? then Some(change.state) else before
  }

  function Flat(ops: seq<Op>, p: BlockPos): Option<u32>
    decreases |ops|
  {
    if ops == [] then None else Next(Flat(ops[..|ops| - 1], p), ops[|ops| - 1], p)
  }

  ghost predicate Reflects(before: View, op: Op, after: View) {
    forall p {:trigger Lookup(after, p)} :: Lookup(after, p) == Next(Lookup(before, p), op, p)
  }

  class Column {
    const pos: ChunkPos
    var sections: Sections

    constructor (pos: ChunkPos)
      ensures this.pos == pos && sections == map[]
    {
      this.pos, sections := pos, map[];
    }
  }

  /**
   * Every mutator also promises that each section anyone may hold is as sound as it was, so a snapshot taken
   * earlier keeps answering what it answered.
   */
  class Chunks {
    /** What the columns hold; no method reads it. */
    ghost var view: View
    ghost var repr: set<object>

    var loaded: map<ChunkPos, Column>

    ghost predicate Valid()
      reads this, repr
    {
      && this in repr
      && loaded.Keys == view.Keys
      && (forall pos :: pos in loaded ==>
            loaded[pos] in repr && loaded[pos].pos == pos && loaded[pos].sections == view[pos])
      && (forall pos, y :: pos in view && y in view[pos] ==>
            view[pos][y] in repr && view[pos][y].y == y && view[pos][y].Valid())
    }

    constructor ()
      ensures Valid() && fresh(repr) && view == map[]
    {
      loaded, view, repr := map[], map[], {this};
    }

    /** A snapshot: sections are shared, no block is read or copied. */
    method Snapshot() returns (snapshot: View)
      requires Valid()
      ensures snapshot == view && Sound(snapshot)
    {
      snapshot := map pos | pos in loaded :: loaded[pos].sections;
    }

    method Track(pos: ChunkPos) returns (column: Column)
      requires Valid()
      modifies this
      ensures Valid() && fresh(repr - old(repr)) && pos in loaded && column == loaded[pos]
      ensures view == if pos in old(view) then old(view) else old(view)[pos := map[]]
    {
      if pos !in loaded {
        column := new Column(pos);
        loaded, view, repr := loaded[pos := column], view[pos := map[]], repr + {column};
      }
      column := loaded[pos];
    }

    method Store(pos: ChunkPos, section: Section)
      requires Valid() && section.Valid() && pos in loaded
      modifies this`view, this`repr, loaded[pos]
      ensures Valid() && repr == old(repr) + {section} && loaded == old(loaded)
      ensures view == old(view)[pos := old(view)[pos][section.y := section]]
    {
      var column := loaded[pos];
      column.sections := column.sections[section.y := section];
      view, repr := view[pos := column.sections], repr + {section};
    }

    method StoreSent(pos: ChunkPos, sent: SectionData)
      requires Valid() && pos in loaded
      modifies this`view, this`repr, loaded[pos]
      ensures Valid() && fresh(repr - old(repr)) && loaded == old(loaded)
      ensures Reflects(old(view), Load(pos, [sent]), view)
    {
      var section := new Section.Received(sent.y, sent.raw, sent.decode);
      Store(pos, section);
      StoreReflected(old(view), pos, sent, section, view);
    }

    /** Records a column the server sent; nothing is decoded. */
    method Loaded(pos: ChunkPos, data: seq<SectionData>)
      requires Valid()
      modifies repr
      ensures Valid() && fresh(repr - old(repr))
      ensures forall s: Section {:trigger s.Valid()} :: old(allocated(s)) && old(s.Valid()) ==> s.Valid()
      ensures Reflects(old(view), Load(pos, data), view)
    {
      var column := Track(pos);
      for i := 0 to |data|
        invariant Valid() && fresh(repr - old(repr)) && pos in loaded
        invariant forall s: Section {:trigger s.Valid()} :: old(allocated(s)) && old(s.Valid()) ==> s.Valid()
        invariant Reflects(old(view), Load(pos, data[..i]), view)
      {
        ghost var before := view;
        StoreSent(pos, data[i]);
        LoadMore(old(view), pos, data[..i], before, data[i], view);
        assert data[..i + 1] == data[..i] + [data[i]];
      }
      assert data[..|data|] == data;
    }

    lemma StoreReflected(before: View, pos: ChunkPos, sent: SectionData, section: Section, after: View)
      requires pos in before && after == before[pos := before[pos][sent.y := section]]
      requires section.meaning == DecodeWith(sent.decode, sent.raw)
      ensures Reflects(before, Load(pos, [sent]), after)
    {
      assert [sent][..0] == [];
      forall p
        ensures Lookup(after, p) == Next(Lookup(before, p), Load(pos, [sent]), p)
      {
        assert Sent([sent], SectionIndex(p.y)) == if sent.y == SectionIndex(p.y) then Some(sent) else None;
      }
    }

    lemma LoadMore(before: View, pos: ChunkPos, data: seq<SectionData>, mid: View, sent: SectionData, after: View)
      requires Reflects(before, Load(pos, data), mid) && Reflects(mid, Load(pos, [sent]), after)
      ensures Reflects(before, Load(pos, data + [sent]), after)
    {
      forall p
        ensures Lookup(after, p) == Next(Lookup(before, p), Load(pos, data + [sent]), p)
      {
        assert (data + [sent])[..|data|] == data && [sent][..0] == [];
        assert Sent([sent], SectionIndex(p.y)) == if sent.y == SectionIndex(p.y) then Some(sent) else None;
        assert Lookup(mid, p) == Next(Lookup(before, p), Load(pos, data), p);
        assert Lookup(after, p) == Next(Lookup(mid, p), Load(pos, [sent]), p);
      }
    }

    /** Releases a column and everything in it. */
    method Unloaded(pos: ChunkPos)
      requires Valid()
      modifies this
      ensures Valid() && repr == old(repr)
      ensures forall s: Section {:trigger s.Valid()} :: old(allocated(s)) && old(s.Valid()) ==> s.Valid()
      ensures Reflects(old(view), Unload(pos), view)
    {
      if pos !in loaded {
        return;
      }
      loaded, view := loaded - {pos}, view - {pos};
    }

    /** Swaps in a replacement section holding the new block, when the old one can be decoded there. */
    method Apply(change: BlockChange) returns (applied: bool)
      requires Valid()
      modifies repr
      ensures Valid() && fresh(repr - old(repr))
      ensures forall s: Section {:trigger s.Valid()} :: old(allocated(s)) && old(s.Valid()) ==> s.Valid()
      ensures applied <==> Lookup(old(view), change.pos).Some?
      ensures Reflects(old(view), Change(change), view)
    {
      var pos, y := ColumnOf(change.pos), SectionIndex(change.pos.y);
      if pos !in loaded || y !in loaded[pos].sections {
        return false;
      }
      var section := loaded[pos].sections[y];
      assert section == view[pos][y];
      var next := section.WithBlock(IndexOf(change.pos), change.state);
      if next == null {
        return false;
      }
      Store(pos, next);
      ChangeReflected(old(view), change, next, view);
      return true;
    }

    lemma ChangeReflected(before: View, change: BlockChange, next: Section, after: View)
      requires ColumnOf(change.pos) in before && SectionIndex(change.pos.y) in before[ColumnOf(change.pos)]
      requires var pos, y := ColumnOf(change.pos), SectionIndex(change.pos.y);
               && after == before[pos := before[pos][y := next]]
               && StateIn(before[pos][y].meaning, IndexOf(change.pos)).Some?
               && forall i :: StateIn(next.meaning, i) ==
                              if i == IndexOf(change.pos) then Some(change.state)
                              else StateIn(before[pos][y].meaning, i)
      ensures Reflects(before, Change(change), after)
    {
      forall p
        ensures Lookup(after, p) == Next(Lookup(before, p), Change(change), p)
      {
        if ColumnOf(p) == ColumnOf(change.pos) && SectionIndex(p.y) == SectionIndex(change.pos.y) {
          if IndexOf(p) == IndexOf(change.pos) {
            AddressesDiffer(p, change.pos);
          }
        }
      }
    }

    /** Applies a list of changes; each is either applied or counted as dropped. */
    method BlocksChanged(changes: seq<BlockChange>) returns (applied: seq<BlockChange>, dropped: nat)
      requires Valid()
      modifies repr
      ensures Valid() && fresh(repr - old(repr))
      ensures forall s: Section {:trigger s.Valid()} :: old(allocated(s)) && old(s.Valid()) ==> s.Valid()
      ensures applied == Known(old(view), changes) && |applied| + dropped == |changes|
      ensures forall p :: Lookup(view, p) == AfterChanges(Lookup(old(view), p), changes, p)
    {
      applied, dropped := [], 0;
      for i := 0 to |changes|
        invariant Valid() && fresh(repr - old(repr))
        invariant forall s: Section {:trigger s.Valid()} :: old(allocated(s)) && old(s.Valid()) ==> s.Valid()
        invariant applied == Known(old(view), changes[..i]) && |applied| + dropped == i
        invariant forall p {:trigger Lookup(view, p)} ::
                    Lookup(view, p) == AfterChanges(Lookup(old(view), p), changes[..i], p)
      {
        ghost var before := view;
        assert changes[..i + 1][..i] == changes[..i];
        PresenceKept(Lookup(old(view), changes[i].pos), changes[..i], changes[i].pos);
        var ok := Apply(changes[i]);
        if ok {
          applied := applied + [changes[i]];
        } else {
          dropped := dropped + 1;
        }
      }
      assert changes[..|changes|] == changes;
    }
  }

  /** The changes at positions the view knows, in order. */
  ghost function Known(view: View, changes: seq<BlockChange>): seq<BlockChange>
    decreases |changes|
  {
    if changes == [] then []
    else
      var last := changes[|changes| - 1];
      Known(view, changes[..|changes| - 1]) + if Lookup(view, last.pos).Some? then [last] else []
  }

  /** Of one list of changes and then another, those at known positions are those of the one and then of the other. */
  lemma {:induction false} KnownSplits(view: View, changes: seq<BlockChange>, more: seq<BlockChange>)
    ensures Known(view, changes + more) == Known(view, changes) + Known(view, more)
    decreases |more|
  {
    if more == [] {
      assert changes + more == changes;
    } else {
      var init := more[..|more| - 1];
      KnownSplits(view, changes, init);
      assert (changes + more)[..|changes + more| - 1] == changes + init;
    }
  }

  /** A single change is at a known position exactly when the view shows a block there. */
  lemma KnownOne(view: View, change: BlockChange)
    ensures Known(view, [change]) == if Lookup(view, change.pos) != None then [change] else []
  {
    assert [change][..0] == [];
  }

  function AfterChanges(before: Option<u32>, changes: seq<BlockChange>, p: BlockPos): Option<u32>
    decreases |changes|
  {
    if changes == [] then before
    else Next(AfterChanges(before, changes[..|changes| - 1], p), Change(changes[|changes| - 1]), p)
  }

  lemma {:induction false} PresenceKept(before: Option<u32>, changes: seq<BlockChange>, p: BlockPos)
    ensures AfterChanges(before, changes, p).Some? <==> before.Some?
    decreases |changes|
  {
    if changes != [] {
      PresenceKept(before, changes[..|changes| - 1], p);
    }
  }

  // ----- Whole runs -----

  ghost predicate ShowsFlat(view: View, ops: seq<Op>) {
    forall p {:trigger Lookup(view, p)} :: Lookup(view, p) == Flat(ops, p)
  }

  lemma OneMoreOp(before: View, ops: seq<Op>, op: Op, after: View)
    requires ShowsFlat(before, ops) && Reflects(before, op, after)
    ensures ShowsFlat(after, ops + [op])
  {
    forall p
      ensures Lookup(after, p) == Flat(ops + [op], p)
    {
      assert (ops + [op])[..|ops|] == ops;
      assert Lookup(before, p) == Flat(ops, p);
    }
  }

  lemma SameAfterOne(before: Option<u32>, change: BlockChange, p: BlockPos)
    ensures AfterChanges(before, [change], p) == Next(before, Change(change), p)
  {
    assert [change][..0] == [];
  }

  // ----- What one block of a loaded section shows -----

  /** The state the last change of a block gives it. */
  function LastChange(ops: seq<Op>, p: BlockPos): Option<u32>
    decreases |ops|
  {
    if ops == [] then None
    else
      var last := ops[|ops| - 1];
      if last.Change? && last.change.pos == p then Some(last.change.state) else LastChange(ops[..|ops| - 1], p)
  }

  /** The operation leaves the section as it is, but for single blocks. */
  ghost predicate LeavesSection(op: Op, pos: ChunkPos, sy: int) {
    match op
    case Load(column, data) => column == pos ==> forall i :: 0 <= i < |data| ==> data[i].y != sy
    case Unload(column) => column != pos
    case Change(_) => true
  }

  lemma {:induction false} SentIs(data: seq<SectionData>, i: nat)
    requires i < |data| && forall j :: i < j < |data| ==> data[j].y != data[i].y
    ensures Sent(data, data[i].y) == Some(data[i])
    decreases |data|
  {
    if i < |data| - 1 {
      assert data[..|data| - 1][i] == data[i];
      SentIs(data[..|data| - 1], i);
    }
  }

  lemma {:induction false} NotSent(data: seq<SectionData>, sy: int)
    requires forall i :: 0 <= i < |data| ==> data[i].y != sy
    ensures Sent(data, sy) == None
    decreases |data|
  {
    if data != [] {
      NotSent(data[..|data| - 1], sy);
    }
  }

  /**
   * From the load that sent a section on, until the section is sent again or its column unloaded, a block shows what
   * its last change gave it, or else its own entry of the 4096 states the section decodes to.
   */
  lemma {:induction false} BlockShows(
    ops: seq<Op>, k: nat, pos: ChunkPos, data: seq<SectionData>, i: nat, states: seq<u32>,
    p: BlockPos, x: int, y: int, z: int)
    requires k < |ops| && ops[k] == Load(pos, data)
    requires i < |data| && (forall j :: i < j < |data| ==> data[j].y != data[i].y)
    requires data[i].decode.Some? && data[i].decode.value(data[i].raw) == States(states) && |states| == 4096
    requires forall j :: k < j < |ops| ==> LeavesSection(ops[j], pos, data[i].y)
    requires LiesAt(p, pos, data[i].y, x, y, z)
    ensures Flat(ops, p) == var changed := LastChange(ops[k + 1..], p);
                            Some(if changed.Some? then changed.value else states[(y * 16 + z) * 16 + x])
    decreases |ops|
  {
    AddressOf(p, pos, data[i].y, x, y, z);
    var n := |ops| - 1;
    if k == n {
      SentIs(data, i);
    } else {
      BlockShows(ops[..n], k, pos, data, i, states, p, x, y, z);
      assert ops[k + 1..][..|ops[k + 1..]| - 1] == ops[..n][k + 1..];
      if ops[n].Load? && ops[n].column == pos {
        NotSent(ops[n].data, data[i].y);
      }
    }
  }

  /** Sections that no decoder reads, or that it cannot read, show nothing and take no change. */
  lemma {:induction false} UndecodableShowsNothing(
    ops: seq<Op>, k: nat, pos: ChunkPos, data: seq<SectionData>, i: nat, p: BlockPos, x: int, y: int, z: int)
    requires k < |ops| && ops[k] == Load(pos, data)
    requires i < |data| && (forall j :: i < j < |data| ==> data[j].y != data[i].y)
    requires data[i].decode.None? || data[i].decode.value(data[i].raw).Undecodable?
    requires forall j :: k < j < |ops| ==> LeavesSection(ops[j], pos, data[i].y)
    requires LiesAt(p, pos, data[i].y, x, y, z)
    ensures Flat(ops, p) == None
    decreases |ops|
  {
    AddressOf(p, pos, data[i].y, x, y, z);
    var n := |ops| - 1;
    if k == n {
      SentIs(data, i);
    } else {
      UndecodableShowsNothing(ops[..n], k, pos, data, i, p, x, y, z);
      if ops[n].Load? && ops[n].column == pos {
        NotSent(ops[n].data, data[i].y);
      }
    }
  }

  /** A block of a column that was never loaded, or has been unloaded since, shows nothing. */
  lemma {:induction false} UnloadedShowsNothing(ops: seq<Op>, k: nat, p: BlockPos, pos: ChunkPos, sy: int,
                                                x: int, y: int, z: int)
    requires LiesAt(p, pos, sy, x, y, z) && k <= |ops| && (k == 0 || ops[k - 1] == Unload(pos))
    requires forall j :: k <= j < |ops| ==> !(ops[j].Load? && ops[j].column == pos)
    ensures Flat(ops, p) == None
    decreases |ops|
  {
    AddressOf(p, pos, sy, x, y, z);
    if k < |ops| {
      UnloadedShowsNothing(ops[..|ops| - 1], k, p, pos, sy, x, y, z);
    }
  }

  /** After a change of a loaded section's block the section shows its states with exactly that entry replaced. */
  lemma ChangeReplacesEntry(ops: seq<Op>, pos: ChunkPos, d: SectionData, states: seq<u32>, change: BlockChange,
                            x: int, y: int, z: int, p: BlockPos, x': int, y': int, z': int)
    requires d.decode.Some? && d.decode.value(d.raw) == States(states) && |states| == 4096
    requires LiesAt(change.pos, pos, d.y, x, y, z) && LiesAt(p, pos, d.y, x', y', z')
    ensures Flat(ops + [Load(pos, [d])], p) == Some(states[(y' * 16 + z') * 16 + x'])
    ensures Flat(ops + [Load(pos, [d]), Change(change)], p) ==
            Some(states[(y * 16 + z) * 16 + x := change.state][(y' * 16 + z') * 16 + x'])
  {
    var loaded, changed := ops + [Load(pos, [d])], ops + [Load(pos, [d]), Change(change)];
    BlockShows(loaded, |ops|, pos, [d], 0, states, p, x', y', z');
    BlockShows(changed, |ops|, pos, [d], 0, states, p, x', y', z');
    assert loaded[|ops| + 1..] == [] && changed[|ops| + 1..] == [Change(change)];
    assert [Change(change)][..0] == [];
    assert p == change.pos <==> (x', y', z') == (x, y, z);
  }

  method Perform(c: Chunks, op: Op)
    requires c.Valid()
    modifies c.repr
    ensures c.Valid() && fresh(c.repr - old(c.repr))
    ensures forall s: Section {:trigger s.Valid()} :: old(allocated(s)) && old(s.Valid()) ==> s.Valid()
    ensures Reflects(old(c.view), op, c.view)
  {
    match op
    case Load(column, data) => c.Loaded(column, data);
    case Unload(column) => c.Unloaded(column);
    case Change(change) =>
      var applied, dropped := c.BlocksChanged([change]);
      forall p
        ensures Lookup(c.view, p) == Next(Lookup(old(c.view), p), op, p)
      {
        SameAfterOne(Lookup(old(c.view), p), change, p);
      }
  }

  /** One read through a held snapshot, then one operation. */
  method Round(c: Chunks, held: seq<View>, k: nat, p: BlockPos, op: Op) returns (answer: Option<u32>)
    requires c.Valid() && k < |held| && forall j :: 0 <= j < |held| ==> Sound(held[j])
    modifies c.repr, set pos, y | pos in held[k] && y in held[k][pos] :: held[k][pos][y]
    ensures c.Valid() && fresh(c.repr - old(c.repr)) && Reflects(old(c.view), op, c.view)
    ensures forall j :: 0 <= j < |held| ==> Sound(held[j])
    ensures answer == Lookup(held[k], p)
  {
    answer := BlockIn(held[k], p);
    Perform(c, op);
  }

  /**
   * Any run of loads, unloads and changes, with a snapshot taken before each of them and, each time, one block
   * read through any snapshot taken so far - which may be the read that decodes its section. Every read answers
   * what the flat map held when its snapshot was taken, and so does every snapshot when the run is over.
   */
  method Replay(ops: seq<Op>, asked: seq<(nat, BlockPos)>)
    returns (c: Chunks, held: seq<View>, answers: seq<Option<u32>>)
    requires |asked| == |ops| && forall i :: 0 <= i < |asked| ==> asked[i].0 <= i
    ensures c.Valid() && ShowsFlat(c.view, ops)
    ensures |held| == |ops| && forall k :: 0 <= k < |held| ==> Sound(held[k]) && ShowsFlat(held[k], ops[..k])
    ensures |answers| == |ops|
    ensures forall i :: 0 <= i < |answers| ==> answers[i] == Flat(ops[..asked[i].0], asked[i].1)
  {
    c := new Chunks();
    held, answers := [], [];
    for i := 0 to |ops|
      invariant c.Valid() && fresh(c.repr) && ShowsFlat(c.view, ops[..i])
      invariant |held| == i && HeldShow(held, ops) && AnswersFlat(answers, ops, asked) && |answers| == i
      invariant forall k :: 0 <= k < i ==> Sound(held[k])
      invariant forall k, pos, y :: 0 <= k < i && pos in held[k] && y in held[k][pos] ==> fresh(held[k][pos][y])
    {
      var snapshot := c.Snapshot();
      HeldMore(held, ops, snapshot);
      held := held + [snapshot];
      ghost var before := c.view;
      var answer := Round(c, held, asked[i].0, asked[i].1, ops[i]);
      AnswersMore(held, answers, ops, asked, answer);
      answers := answers + [answer];
      OneMoreOp(before, ops[..i], ops[i], c.view);
      assert ops[..i + 1] == ops[..i] + [ops[i]];
    }
    assert ops[..|ops|] == ops;
  }

  ghost predicate HeldShow(held: seq<View>, ops: seq<Op>) {
    |held| <= |ops| && forall k :: 0 <= k < |held| ==> ShowsFlat(held[k], ops[..k])
  }

  lemma HeldMore(held: seq<View>, ops: seq<Op>, snapshot: View)
    requires |held| < |ops| && HeldShow(held, ops) && ShowsFlat(snapshot, ops[..|held|])
    ensures HeldShow(held + [snapshot], ops)
  {
  }

  ghost predicate AnswersFlat(answers: seq<Option<u32>>, ops: seq<Op>, asked: seq<(nat, BlockPos)>) {
    && |answers| <= |ops| == |asked|
    && forall i :: 0 <= i < |answers| ==> asked[i].0 <= i && answers[i] == Flat(ops[..asked[i].0], asked[i].1)
  }

  lemma AnswersMore(held: seq<View>, answers: seq<Option<u32>>, ops: seq<Op>, asked: seq<(nat, BlockPos)>,
                    answer: Option<u32>)
    requires |held| == |answers| + 1 <= |ops| && HeldShow(held, ops) && AnswersFlat(answers, ops, asked)
    requires asked[|answers|].0 <= |answers|
    requires answer == Lookup(held[asked[|answers|].0], asked[|answers|].1)
    ensures AnswersFlat(answers + [answer], ops, asked)
  {
    assert ShowsFlat(held[asked[|answers|].0], ops[..asked[|answers|].0]);
  }
}
