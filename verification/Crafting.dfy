/** What crafting a grid produces and leaves, once and repeatedly: crafting/craft.go. */
module Crafting {
  import opened Options
  import opened Grids
  import opened Recipes
  import opened Matching

  /** A grid whose cells live in memory a caller may share. */
  datatype GridRef = GridRef(width: nat, height: nat, cells: array<Cell>) {
    ghost predicate Valid()
      reads cells
    {
      Value().Valid()
    }

    function Value(): Grid
      reads cells
    {
      Raster(width, height, cells[..])
    }
  }

  const NOTHING := Cell(0, 0, 0)

  function Lighten(cell: Cell): Cell {
    if cell.Empty() then cell
    else if cell.count - 1 <= 0 then NOTHING
    else cell.(count := cell.count - 1)
  }

  /** One item fewer in every occupied cell. */
  function Lighter(g: Grid): (l: Grid)
    requires g.Valid()
    ensures l.Valid()
  {
    Raster(g.width, g.height, seq(|g.cells|, i requires 0 <= i < |g.cells| => Lighten(g.cells[i])))
  }

  /** The grid after k crafts. */
  function After(g: Grid, k: nat): (l: Grid)
    requires g.Valid()
    ensures l.Valid() && l.width == g.width && l.height == g.height && |l.cells| == |g.cells|
  {
    if k == 0 then g else Lighter(After(g, k - 1))
  }

  /** Crafting k times takes exactly k items from every occupied cell, or all it had. */
  lemma {:induction false} AfterCells(g: Grid, k: nat, i: nat)
    requires g.Valid() && i < |g.cells|
    ensures After(g, k).cells[i] ==
            var c := g.cells[i];
            if k == 0 || c.Empty() then c else if c.count <= k then NOTHING else c.(count := c.count - k)
  {
    if k > 0 {
      AfterCells(g, k - 1, i);
    }
  }

  lemma {:induction false} AfterLighter(g: Grid, k: nat)
    requires g.Valid()
    ensures After(Lighter(g), k) == After(g, k + 1)
  {
    if k > 0 {
      AfterLighter(g, k - 1);
    }
  }

  // ----- How long a repeated craft can go on -----

  function Weight(cells: seq<Cell>): nat {
    if cells == [] then 0 else Weight(cells[1..]) + if cells[0].Empty() then 0 else cells[0].count
  }

  lemma {:induction false} LightenWeighs(cells: seq<Cell>, lighter: seq<Cell>)
    requires |lighter| == |cells| && forall i :: 0 <= i < |cells| ==> lighter[i] == Lighten(cells[i])
    ensures Weight(lighter) <= Weight(cells)
    ensures (exists i :: 0 <= i < |cells| && !cells[i].Empty()) ==> Weight(lighter) < Weight(cells)
  {
    if cells != [] {
      LightenWeighs(cells[1..], lighter[1..]);
      assert forall i :: 1 <= i < |cells| ==> cells[i] == cells[1..][i - 1];
    }
  }

  lemma MadeWeighs(reg: Registry, rule: Rule, g: Grid)
    requires g.Valid() && Made(reg, rule, g).Some?
    ensures Weight(Lighter(g).cells) < Weight(g.cells)
  {
    var at :| Occupied(g, EMPTY_CELL, at);
    InRow(at.0, at.1, g.width, g.height);
    assert !g.cells[at.1 * g.width + at.0].Empty();
    LightenWeighs(g.cells, Lighter(g).cells);
  }

  /** The grid makes a recipe whose result is the given item. */
  ghost predicate Yields(reg: Registry, rule: Rule, g: Grid, id: int, metadata: int)
    requires g.Valid()
  {
    && Made(reg, rule, g).Some?
    && Made(reg, rule, g).value.result.id == id && Made(reg, rule, g).value.result.metadata == metadata
  }

  /** The item a grid makes, and its variant. */
  ghost function MadeResult(reg: Registry, rule: Rule, g: Grid): Option<(int, int)>
    requires g.Valid()
  {
    match Made(reg, rule, g)
    case None => None
    case Some(Recipe(Result(id, metadata, _), _, _)) => Some((id, metadata))
  }

  /** How many crafts in a row yield the given item. */
  ghost function Yield(reg: Registry, rule: Rule, g: Grid, id: int, metadata: int): nat
    requires g.Valid()
    decreases Weight(g.cells)
  {
    if Yields(reg, rule, g, id, metadata) then
      MadeWeighs(reg, rule, g);
      1 + Yield(reg, rule, Lighter(g), id, metadata)
    else 0
  }

  /** It is the largest such number: each of those crafts yields the item and the next one does not. */
  lemma {:induction false} YieldIsLargest(reg: Registry, rule: Rule, g: Grid, id: int, metadata: int)
    requires g.Valid()
    ensures var k := Yield(reg, rule, g, id, metadata);
            && (forall j: nat :: j < k ==> Yields(reg, rule, After(g, j), id, metadata))
            && !Yields(reg, rule, After(g, k), id, metadata)
    decreases Weight(g.cells)
  {
    if Yields(reg, rule, g, id, metadata) {
      MadeWeighs(reg, rule, g);
      YieldIsLargest(reg, rule, Lighter(g), id, metadata);
      var k := Yield(reg, rule, g, id, metadata);
      assert !Yields(reg, rule, After(g, k), id, metadata) by {
        AfterLighter(g, k - 1);
      }
      forall j: nat | j < k
        ensures Yields(reg, rule, After(g, j), id, metadata)
      {
        if j > 0 {
          AfterLighter(g, j - 1);
        }
      }
    }
  }

  /** That is: each of those crafts makes that item in that variant, and the next makes something else or nothing. */
  lemma YieldMakes(reg: Registry, rule: Rule, g: Grid, id: int, metadata: int)
    requires g.Valid()
    ensures var k := Yield(reg, rule, g, id, metadata);
            && (forall j: nat :: j < k ==> MadeResult(reg, rule, After(g, j)) == Some((id, metadata)))
            && MadeResult(reg, rule, After(g, k)) != Some((id, metadata))
  {
    var k := Yield(reg, rule, g, id, metadata);
    YieldIsLargest(reg, rule, g, id, metadata);
    YieldsIff(reg, rule, After(g, k), id, metadata);
    forall j: nat | j < k
      ensures MadeResult(reg, rule, After(g, j)) == Some((id, metadata))
    {
      YieldsIff(reg, rule, After(g, j), id, metadata);
    }
  }

  lemma YieldsIff(reg: Registry, rule: Rule, g: Grid, id: int, metadata: int)
    requires g.Valid()
    ensures Yields(reg, rule, g, id, metadata) <==> MadeResult(reg, rule, g) == Some((id, metadata))
  {
  }

  /** What k crafts produce in all. */
  ghost function Produced(reg: Registry, rule: Rule, g: Grid, k: nat): int
    requires g.Valid()
  {
    if k == 0 then 0
    else
      var made := Made(reg, rule, After(g, k - 1));
      Produced(reg, rule, g, k - 1) + if made.Some? then made.value.result.count else 0
  }

  lemma OneMore(reg: Registry, rule: Rule, g: Grid, k: nat, id: int, metadata: int)
    requires g.Valid() && Yields(reg, rule, After(g, k), id, metadata)
    ensures var now := After(g, k);
            && After(g, 0) == g && Produced(reg, rule, g, 0) == 0
            && After(g, k + 1) == Lighter(now) && Weight(Lighter(now).cells) < Weight(now.cells)
            && Produced(reg, rule, g, k + 1) == Produced(reg, rule, g, k) + Made(reg, rule, now).value.result.count
            && Yield(reg, rule, now, id, metadata) == 1 + Yield(reg, rule, Lighter(now), id, metadata)
  {
    MadeWeighs(reg, rule, After(g, k));
  }

  /** After k crafts of one item: what they made in all, and how many more of them there are to come. */
  ghost predicate Shifted(reg: Registry, rule: Rule, g: Grid, k: nat, total: Result)
    requires g.Valid()
  {
    && total.count == Produced(reg, rule, g, k)
    && Yield(reg, rule, g, total.id, total.metadata) ==
       k + Yield(reg, rule, After(g, k), total.id, total.metadata)
  }

  lemma ShiftedMore(reg: Registry, rule: Rule, g: Grid, k: nat, total: Result, count: int)
    requires g.Valid() && Shifted(reg, rule, g, k, total)
    requires Made(reg, rule, After(g, k)).Some?
    requires Made(reg, rule, After(g, k)).value.result == Result(total.id, total.metadata, count)
    ensures Shifted(reg, rule, g, k + 1, total.(count := total.count + count))
    ensures After(g, 0) == g && After(g, k + 1) == Lighter(After(g, k))
    ensures Weight(After(g, k + 1).cells) < Weight(After(g, k).cells)
  {
    OneMore(reg, rule, g, k, total.id, total.metadata);
  }

  // ----- The operations -----

  method Clone(g: GridRef) returns (copy: GridRef)
    ensures fresh(copy.cells) && copy.Value() == g.Value()
  {
    var cells := new Cell[g.cells.Length](_ => NOTHING);
    for i := 0 to g.cells.Length
      invariant cells[..i] == g.cells[..i]
    {
      cells[i] := g.cells[i];
    }
    assert cells[..cells.Length] == cells[..];
    copy := GridRef(g.width, g.height, cells);
  }

  /** One craft: the result, and a new grid one item lighter. The source grid is left alone. */
  method Craft(reg: Registry, rule: Rule, g: GridRef) returns (result: Result, remaining: GridRef, ok: bool)
    requires g.Valid()
    ensures ok <==> Made(reg, rule, g.Value()).Some?
    ensures ok ==> result == Made(reg, rule, g.Value()).value.result
    ensures fresh(remaining.cells) && remaining.Valid()
    ensures ok ==> remaining.Value() == Lighter(g.Value())
  {
    var recipe := Match(reg, rule, g.Value());
    if recipe.None? {
      var none := new Cell[0];
      return Result(0, 0, 0), GridRef(0, 0, none), false;
    }
    remaining := Clone(g);
    for at := 0 to remaining.cells.Length
      invariant forall i :: 0 <= i < at ==> remaining.cells[i] == Lighten(g.cells[i])
      invariant forall i :: at <= i < remaining.cells.Length ==> remaining.cells[i] == g.cells[i]
    {
      var cell := remaining.cells[at];
      if cell.Empty() {
        continue;
      }
      cell := cell.(count := cell.count - 1);
      if cell.count <= 0 {
        cell := NOTHING;
      }
      remaining.cells[at] := cell;
    }
    result, ok := recipe.value.result, true;
  }

  /**
   * Crafts until the grid stops yielding the first result, which it must: every craft makes the grid lighter.
   * The total is the first result with the counts of all those crafts added up.
   */
  method ShiftCraft(reg: Registry, rule: Rule, g: GridRef) returns (total: Result, remaining: GridRef, ok: bool)
    requires g.Valid()
    ensures ok <==> Made(reg, rule, g.Value()).Some?
    ensures fresh(remaining.cells) && remaining.Valid()
    ensures ok ==>
              var first := Made(reg, rule, g.Value()).value.result;
              var k := Yield(reg, rule, g.Value(), first.id, first.metadata);
              && k >= 1
              && remaining.Value() == After(g.Value(), k)
              && total == first.(count := Produced(reg, rule, g.Value(), k))
  {
    total, remaining, ok := Craft(reg, rule, g);
    if !ok {
      return;
    }
    ghost var v := g.Value();
    ghost var k: nat := 1;
    ShiftedMore(reg, rule, v, 0, total.(count := 0), total.count);
    while true
      invariant fresh(remaining.cells) && remaining.Valid() && g.Value() == v
      invariant k >= 1 && remaining.Value() == After(v, k) && Shifted(reg, rule, v, k, total)
      decreases Weight(remaining.cells[..])
    {
      var result, next, again := Craft(reg, rule, remaining);
      if !again || result.id != total.id || result.metadata != total.metadata {
        return total, remaining, true;
      }
      ShiftedMore(reg, rule, v, k, total, result.count);
      total := total.(count := total.count + result.count);
      remaining, k := next, k + 1;
    }
  }
}
