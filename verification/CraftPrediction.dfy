/** Protocol 47's local crafting: internal/adapter/v1_8/craft.go. */
module CraftPrediction {
  import opened Options
  import opened Items
  import opened Grids
  import opened Recipes
  import opened Crafting

  /** Protocol 47's rule: the same item, and metadata -1 for any variant. */
  const SATISFIES: Rule := (cell: Cell, want: Ingredient) =>
    !cell.Empty() && cell.id == want.id && (want.metadata == -1 || cell.metadata == want.metadata)

  datatype Layout = Layout(result: int, grid: seq<int>, width: nat, height: nat)

  const CRAFTING_TABLE_MENU := "minecraft:crafting_table"
  const PLAYER_MENU := 0

  function CraftingLayout(menuType: string, window: int): Option<Layout> {
    if menuType == CRAFTING_TABLE_MENU then Some(Layout(0, [1, 2, 3, 4, 5, 6, 7, 8, 9], 3, 3))
    else if window == PLAYER_MENU then Some(Layout(0, [1, 2, 3, 4], 2, 2))
    else None
  }

  /** Go's conversions to the narrow wire integers wrap. */
  function Int8(n: int): (r: i8)
    ensures (n - r) % 0x100 == 0
  {
    (n + 0x80) % 0x100 - 0x80
  }

  function Int16(n: int): (r: i16)
    ensures (n - r) % 0x1_0000 == 0
  {
    (n + 0x8000) % 0x1_0000 - 0x8000
  }

  /** One decoded stack in the matcher's vocabulary. */
  function CellOf(stack: Content): Cell {
    if stack.Some? && stack.value.Stack? && stack.value.block >= 0
    then Cell(stack.value.block, stack.value.damage, stack.value.count)
    else NOTHING
  }

  function GridOf(stacks: seq<Content>): (g: Grid)
    requires |stacks| == 4 || |stacks| == 9
    ensures g.Valid()
  {
    Raster(if |stacks| == 4 then 2 else 3, if |stacks| == 4 then 2 else 3,
           seq(|stacks|, i requires 0 <= i < |stacks| => CellOf(stacks[i])))
  }

  /** The stack with one item fewer, identity and remainder kept; nothing where a craft leaves nothing. */
  function OneFewer(stack: Content): Content {
    var cell := CellOf(stack);
    if cell.Empty() || cell.count <= 1 then None
    else Some(stack.value.(count := stack.value.count - 1))
  }

  function ResultStack(result: Result): Item {
    Stack(Int16(result.id), Int8(result.count), Int16(result.metadata), 0)
  }

  datatype Prediction = Prediction(result: Item, remaining: seq<Content>)

  /** What the stacks craft: the result of the recipe their grid makes, and every stack one item lighter. */
  ghost function Predicted(reg: Registry, stacks: seq<Content>): Option<Prediction>
    requires |stacks| == 4 || |stacks| == 9
  {
    var made := Made(reg, SATISFIES, GridOf(stacks));
    if made.None? then None
    else Some(Prediction(ResultStack(made.value.result),
                         seq(|stacks|, i requires 0 <= i < |stacks| => OneFewer(stacks[i]))))
  }

  method ReadGrid(stacks: seq<Content>) returns (g: GridRef)
    requires |stacks| == 4 || |stacks| == 9
    ensures fresh(g.cells) && g.Value() == GridOf(stacks)
  {
    var width, height := 3, 3;
    if |stacks| == 4 {
      width, height := 2, 2;
    }
    var cells := new Cell[|stacks|](_ => NOTHING);
    for i := 0 to |stacks|
      invariant forall k :: 0 <= k < i ==> cells[k] == CellOf(stacks[k])
    {
      cells[i] := CellOf(stacks[i]);
    }
    g := GridRef(width, height, cells);
  }

  method WriteGrid(stacks: seq<Content>, cells: seq<Cell>) returns (after: seq<Content>)
    requires |cells| == |stacks| && forall i :: 0 <= i < |cells| ==> cells[i] == Lighten(CellOf(stacks[i]))
    ensures |after| == |stacks| && forall i :: 0 <= i < |after| ==> after[i] == OneFewer(stacks[i])
  {
    after := [];
    for at := 0 to |cells|
      invariant |after| == at
      invariant forall k :: 0 <= k < at ==> after[k] == OneFewer(stacks[k])
    {
      var cell := cells[at];
      if cell.Empty() || stacks[at].None? || !stacks[at].value.Stack? {
        after := after + [None];
      } else {
        after := after + [Some(stacks[at].value.(count := Int8(cell.count)))];
      }
    }
  }

  method PredictCraft(reg: Registry, stacks: seq<Content>) returns (prediction: Option<Prediction>)
    requires |stacks| == 4 || |stacks| == 9
    ensures prediction == Predicted(reg, stacks)
  {
    var g := ReadGrid(stacks);
    var result, remaining, ok := Craft(reg, SATISFIES, g);
    if !ok {
      return None;
    }
    assert forall i :: 0 <= i < |stacks| ==> remaining.Value().cells[i] == Lighten(CellOf(stacks[i]));
    var after := WriteGrid(stacks, remaining.cells[..]);
    prediction := Some(Prediction(ResultStack(result), after));
    assert Predicted(reg, stacks).Some? && after == Predicted(reg, stacks).value.remaining;
  }

  /**
   * The stacks a craft leaves show the same picture as the lighter grid, so predicting from them answers what
   * the lighter grid makes.
   */
  lemma NextResult(reg: Registry, stacks: seq<Content>)
    requires (|stacks| == 4 || |stacks| == 9) && Predicted(reg, stacks).Some?
    ensures var remaining := Predicted(reg, stacks).value.remaining;
            && |remaining| == |stacks|
            && Made(reg, SATISFIES, GridOf(remaining)) == Made(reg, SATISFIES, Lighter(GridOf(stacks)))
  {
    var remaining := Predicted(reg, stacks).value.remaining;
    var lighter, left := Lighter(GridOf(stacks)), GridOf(remaining);
    forall i | 0 <= i < |stacks|
      ensures left.cells[i] == lighter.cells[i] || (left.cells[i].Empty() && lighter.cells[i].Empty())
    {
      assert lighter.cells[i] == Lighten(CellOf(stacks[i]));
    }
    SamePictureSameRecipe(reg, lighter, left);
  }

  lemma SamePictureSameRecipe(reg: Registry, g: Grid, g': Grid)
    requires g.Valid() && g'.Valid() && g.width == g'.width && g.height == g'.height
    requires forall i :: 0 <= i < |g.cells| ==> g'.cells[i] == g.cells[i] || (g'.cells[i].Empty() && g.cells[i].Empty())
    ensures Made(reg, SATISFIES, g') == Made(reg, SATISFIES, g)
  {
    forall x, y
      ensures Holds(g', x, y) == Holds(g, Turn(false, x) + 0, y + 0)
    {
      if 0 <= x < g.width && 0 <= y < g.height {
        InRow(x, y, g.width, g.height);
      }
    }
    MadeMoved(reg, SATISFIES, g, g', false, 0, 0);
  }
}
