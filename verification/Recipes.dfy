/** Recipes and what it means for a grid to craft one, stated without trimming, padding or search. */
module Recipes {
  import opened Options
  import opened Grids

  datatype Cell = Cell(id: int, metadata: int, count: int) {
    predicate Empty() {
      id == 0 || count <= 0
    }
  }

  type Grid = Raster<Cell>

  const EMPTY_ITEM := 0

  datatype Ingredient = Ingredient(id: int, metadata: int)

  type Pattern = Raster<Ingredient>

  /** A shape's rows may have different lengths; a missing cell is an empty one. */
  type Shape = seq<seq<Ingredient>>

  datatype Result = Result(id: int, metadata: int, count: int)

  datatype Recipe = Recipe(result: Result, inShape: Shape, ingredients: seq<Ingredient>)

  /** Item ID to that item's recipes, in declaration order. */
  type Registry = map<int, seq<Recipe>>

  /** The version-owned rule for whether a cell satisfies an ingredient. */
  type Rule = (Cell, Ingredient) -> bool

  const EMPTY_CELL: Cell -> bool := (c: Cell) => c.Empty()
  const EMPTY_WANT: Ingredient -> bool := (i: Ingredient) => i.id == EMPTY_ITEM

  function Holds(g: Grid, x: int, y: int): Option<Cell>
    requires g.Valid()
  {
    Look(g, EMPTY_CELL, x, y)
  }

  function ShapeAt(shape: Shape, x: int, y: int): Option<Ingredient> {
    if 0 <= y < |shape| && 0 <= x < |shape[y]| && shape[y][x].id != EMPTY_ITEM then Some(shape[y][x]) else None
  }

  /** Row y, column x of a shape wants what is written there; an ingredient of item 0, or none, wants nothing. */
  lemma ShapeWants(shape: Shape, x: int, y: int)
    ensures ShapeAt(shape, x, y) ==
            if 0 <= y < |shape| && 0 <= x < |shape[y]| && shape[y][x].id != 0 then Some(shape[y][x]) else None
  {
  }

  /** A wanted ingredient is met by a satisfying cell, and where nothing is wanted nothing may lie. */
  predicate Agrees(cell: Option<Cell>, want: Option<Ingredient>, rule: Rule) {
    match (cell, want)
    case (None, None) => true
    case (Some(c), Some(w)) => rule(c, w)
    case _ => false
  }

  function Turn(mirrored: bool, x: int): int {
    if mirrored then -x else x
  }

  /** The shape, slid by some offset over the plane and perhaps mirrored, agrees with it everywhere. */
  ghost predicate Placed(g: Grid, shape: Shape, rule: Rule, mirrored: bool, dx: int, dy: int)
    requires g.Valid()
  {
    forall x, y :: Agrees(Holds(g, x, y), ShapeAt(shape, Turn(mirrored, x) + dx, y + dy), rule)
  }

  ghost predicate ShapedCrafts(g: Grid, shape: Shape, rule: Rule)
    requires g.Valid()
  {
    exists mirrored, dx, dy :: Placed(g, shape, rule, mirrored, dx, dy)
  }

  /** Each ingredient has its own satisfying cell, and no occupied cell is left over. */
  ghost predicate Pairing(g: Grid, wants: seq<Ingredient>, rule: Rule, at: seq<(int, int)>)
    requires g.Valid()
  {
    && |at| == |wants|
    && (forall i, j :: 0 <= i < j < |at| ==> at[i] != at[j])
    && (forall i :: 0 <= i < |at| ==>
          Holds(g, at[i].0, at[i].1).Some? && rule(Holds(g, at[i].0, at[i].1).value, wants[i]))
    && (forall p: (int, int) {:trigger p in at} :: Holds(g, p.0, p.1).Some? ==> p in at)
  }

  ghost predicate ShapelessCrafts(g: Grid, wants: seq<Ingredient>, rule: Rule)
    requires g.Valid()
  {
    exists at :: Pairing(g, wants, rule, at)
  }

  ghost predicate Crafts(g: Grid, recipe: Recipe, rule: Rule)
    requires g.Valid()
  {
    if recipe.inShape != [] then ShapedCrafts(g, recipe.inShape, rule)
    else recipe.ingredients != [] && ShapelessCrafts(g, recipe.ingredients, rule)
  }

  // ----- The recipe a grid makes -----

  ghost predicate Listed(reg: Registry, id: int, i: int) {
    id in reg && 0 <= i < |reg[id]|
  }

  /** The recipe at (id, i) is made, and none before it in item-ID order is. */
  ghost predicate First(reg: Registry, rule: Rule, g: Grid, id: int, i: int)
    requires g.Valid()
  {
    && Listed(reg, id, i)
    && Crafts(g, reg[id][i], rule)
    && forall id', i' :: Listed(reg, id', i') && (id' < id || (id' == id && i' < i)) ==> !Crafts(g, reg[id'][i'], rule)
  }

  /** The first recipe in item-ID order that a grid holding something makes. */
  ghost function Made(reg: Registry, rule: Rule, g: Grid): Option<Recipe>
    requires g.Valid()
  {
    if !Blank(g, EMPTY_CELL) && exists id, i :: First(reg, rule, g, id, i) then
      var id, i :| First(reg, rule, g, id, i);
      Some(reg[id][i])
    else None
  }

  lemma FirstIsUnique(reg: Registry, rule: Rule, g: Grid, id: int, i: int, id': int, i': int)
    requires g.Valid() && First(reg, rule, g, id, i) && First(reg, rule, g, id', i')
    ensures id == id' && i == i'
  {
  }

  // ----- What a craft does not depend on -----

  /** Names a position at which `Moved` is to be used; the relation would otherwise unfold without end. */
  ghost predicate Spot(x: int, y: int) {
    true
  }

  /** The two grids show the same picture on the plane, one moved by an offset and perhaps mirrored. */
  ghost predicate Moved(g: Grid, g': Grid, mirrored: bool, dx: int, dy: int)
    requires g.Valid() && g'.Valid()
  {
    forall x, y {:trigger Spot(x, y)} :: Holds(g', x, y) == Holds(g, Turn(mirrored, x) + dx, y + dy)
  }

  lemma MovedBack(g: Grid, g': Grid, mirrored: bool, dx: int, dy: int)
    requires g.Valid() && g'.Valid() && Moved(g, g', mirrored, dx, dy)
    ensures Moved(g', g, mirrored, Turn(!mirrored, dx), -dy)
  {
    forall x, y
      ensures Holds(g, x, y) == Holds(g', Turn(mirrored, x) + Turn(!mirrored, dx), y - dy)
    {
      assert Spot(Turn(mirrored, x) + Turn(!mirrored, dx), y - dy);
    }
  }

  lemma PlacedMoved(g: Grid, g': Grid, mirrored: bool, dx: int, dy: int, shape: Shape, rule: Rule)
    requires g.Valid() && g'.Valid() && Moved(g, g', mirrored, dx, dy) && ShapedCrafts(g, shape, rule)
    ensures ShapedCrafts(g', shape, rule)
  {
    var m, ex, ey :| Placed(g, shape, rule, m, ex, ey);
    forall x, y
      ensures Agrees(Holds(g', x, y), ShapeAt(shape, Turn(m != mirrored, x) + (Turn(m, dx) + ex), y + (dy + ey)), rule)
    {
      assert Spot(x, y);
      assert Agrees(Holds(g, Turn(mirrored, x) + dx, y + dy),
                    ShapeAt(shape, Turn(m, Turn(mirrored, x) + dx) + ex, y + dy + ey), rule);
    }
    assert Placed(g', shape, rule, m != mirrored, Turn(m, dx) + ex, dy + ey);
  }

  /** Where a position of g ends up in g'. */
  function MoveTo(at: (int, int), mirrored: bool, dx: int, dy: int): (int, int) {
    (Turn(mirrored, at.0 - dx), at.1 - dy)
  }

  lemma PairingCarried(g: Grid, g': Grid, at: seq<(int, int)>, at': seq<(int, int)>, wants: seq<Ingredient>, rule: Rule)
    requires g.Valid() && g'.Valid() && Pairing(g, wants, rule, at) && |at'| == |at|
    requires forall i, j :: 0 <= i < j < |at'| ==> at'[i] != at'[j]
    requires forall i :: 0 <= i < |at'| ==> Holds(g', at'[i].0, at'[i].1) == Holds(g, at[i].0, at[i].1)
    requires forall p: (int, int) {:trigger p in at'} :: Holds(g', p.0, p.1).Some? ==> p in at'
    ensures Pairing(g', wants, rule, at')
  {
  }

  lemma PairingMoved(g: Grid, g': Grid, mirrored: bool, dx: int, dy: int, wants: seq<Ingredient>, rule: Rule)
    requires g.Valid() && g'.Valid() && Moved(g, g', mirrored, dx, dy) && ShapelessCrafts(g, wants, rule)
    ensures ShapelessCrafts(g', wants, rule)
  {
    var at: seq<(int, int)> :| Pairing(g, wants, rule, at);
    var at' := seq(|at|, i requires 0 <= i < |at| => MoveTo(at[i], mirrored, dx, dy));
    forall i | 0 <= i < |at|
      ensures Holds(g', at'[i].0, at'[i].1) == Holds(g, at[i].0, at[i].1)
    {
      assert Spot(at'[i].0, at'[i].1);
    }
    forall i, j | 0 <= i < j < |at|
      ensures at'[i] != at'[j]
    {
      assert at[i] != at[j];
    }
    forall p: (int, int) | Holds(g', p.0, p.1).Some?
      ensures p in at'
    {
      assert Spot(p.0, p.1);
      var from := (Turn(mirrored, p.0) + dx, p.1 + dy);
      assert from in at;
      var i :| 0 <= i < |at| && at[i] == from;
      assert at'[i] == p;
    }
    PairingCarried(g, g', at, at', wants, rule);
  }

  lemma CraftsMoved(g: Grid, g': Grid, mirrored: bool, dx: int, dy: int, recipe: Recipe, rule: Rule)
    requires g.Valid() && g'.Valid() && Moved(g, g', mirrored, dx, dy) && Crafts(g, recipe, rule)
    ensures Crafts(g', recipe, rule)
  {
    if recipe.inShape != [] {
      PlacedMoved(g, g', mirrored, dx, dy, recipe.inShape, rule);
    } else {
      PairingMoved(g, g', mirrored, dx, dy, recipe.ingredients, rule);
    }
  }

  lemma BlankMoved(g: Grid, g': Grid, mirrored: bool, dx: int, dy: int)
    requires g.Valid() && g'.Valid() && Moved(g, g', mirrored, dx, dy) && Blank(g, EMPTY_CELL)
    ensures Blank(g', EMPTY_CELL)
  {
    forall at
      ensures !Occupied(g', EMPTY_CELL, at)
    {
      assert !Occupied(g, EMPTY_CELL, (Turn(mirrored, at.0) + dx, at.1 + dy));
      assert Spot(at.0, at.1);
    }
  }

  /** Everything the choice of a recipe reads from a grid. */
  ghost predicate SameCrafts(reg: Registry, rule: Rule, g: Grid, g': Grid)
    requires g.Valid() && g'.Valid()
  {
    && (Blank(g, EMPTY_CELL) <==> Blank(g', EMPTY_CELL))
    && forall id, i :: Listed(reg, id, i) ==> (Crafts(g, reg[id][i], rule) <==> Crafts(g', reg[id][i], rule))
  }

  lemma CraftsMovedBack(g: Grid, g': Grid, mirrored: bool, dx: int, dy: int, recipe: Recipe, rule: Rule)
    requires g.Valid() && g'.Valid() && Moved(g, g', mirrored, dx, dy) && Crafts(g', recipe, rule)
    ensures Crafts(g, recipe, rule)
  {
    MovedBack(g, g', mirrored, dx, dy);
    CraftsMoved(g', g, mirrored, Turn(!mirrored, dx), -dy, recipe, rule);
  }

  lemma BlankMovedBack(g: Grid, g': Grid, mirrored: bool, dx: int, dy: int)
    requires g.Valid() && g'.Valid() && Moved(g, g', mirrored, dx, dy) && Blank(g', EMPTY_CELL)
    ensures Blank(g, EMPTY_CELL)
  {
    MovedBack(g, g', mirrored, dx, dy);
    BlankMoved(g', g, mirrored, Turn(!mirrored, dx), -dy);
  }

  lemma MovedSameCrafts(reg: Registry, rule: Rule, g: Grid, g': Grid, mirrored: bool, dx: int, dy: int)
    requires g.Valid() && g'.Valid() && Moved(g, g', mirrored, dx, dy)
    ensures SameCrafts(reg, rule, g, g')
  {
    if Blank(g, EMPTY_CELL) {
      BlankMoved(g, g', mirrored, dx, dy);
    }
    if Blank(g', EMPTY_CELL) {
      BlankMovedBack(g, g', mirrored, dx, dy);
    }
    forall id, i | Listed(reg, id, i)
      ensures Crafts(g, reg[id][i], rule) <==> Crafts(g', reg[id][i], rule)
    {
      if Crafts(g, reg[id][i], rule) {
        CraftsMoved(g, g', mirrored, dx, dy, reg[id][i], rule);
      } else if Crafts(g', reg[id][i], rule) {
        CraftsMovedBack(g, g', mirrored, dx, dy, reg[id][i], rule);
      }
    }
  }

  lemma SameCraftsSameMade(reg: Registry, rule: Rule, g: Grid, g': Grid)
    requires g.Valid() && g'.Valid() && SameCrafts(reg, rule, g, g')
    ensures Made(reg, rule, g) == Made(reg, rule, g')
  {
    forall id, i
      ensures First(reg, rule, g, id, i) <==> First(reg, rule, g', id, i)
    {
    }
    if Made(reg, rule, g).Some? {
      var id, i :| First(reg, rule, g, id, i);
      forall id', i' | First(reg, rule, g, id', i')
        ensures id' == id && i' == i
      {
        FirstIsUnique(reg, rule, g, id, i, id', i');
      }
    }
  }

  /**
   * Sliding everything in a grid, redrawing a 2x2 grid inside a 3x3 one, or mirroring it left to right makes the
   * same recipe: only the picture on the plane counts.
   */
  lemma MadeMoved(reg: Registry, rule: Rule, g: Grid, g': Grid, mirrored: bool, dx: int, dy: int)
    requires g.Valid() && g'.Valid() && Moved(g, g', mirrored, dx, dy)
    ensures Made(reg, rule, g) == Made(reg, rule, g')
  {
    MovedSameCrafts(reg, rule, g, g', mirrored, dx, dy);
    SameCraftsSameMade(reg, rule, g, g');
  }

  /** A grid redrawn inside a larger one, at any offset, with nothing around it, makes the same recipe. */
  lemma Embedded(reg: Registry, rule: Rule, g: Grid, large: Grid, offX: int, offY: int)
    requires g.Valid() && large.Valid() && 0 <= offX <= large.width - g.width && 0 <= offY <= large.height - g.height
    requires forall x, y :: 0 <= x < large.width && 0 <= y < large.height ==>
                              if 0 <= x - offX < g.width && 0 <= y - offY < g.height
                              then large.At(x, y) == g.At(x - offX, y - offY) else large.At(x, y).Empty()
    ensures Made(reg, rule, large) == Made(reg, rule, g)
  {
    forall x, y
      ensures Holds(large, x, y) == Holds(g, Turn(false, x) + -offX, y + -offY)
    {
      if 0 <= x < large.width && 0 <= y < large.height {
        assert large.At(x, y).Empty() || large.At(x, y) == g.At(x - offX, y - offY);
      }
    }
    MadeMoved(reg, rule, g, large, false, -offX, -offY);
  }

  /** A grid and its left-to-right mirror image make the same recipe. */
  lemma Reflected(reg: Registry, rule: Rule, g: Grid, image: Grid)
    requires g.Valid() && image.Valid() && image.width == g.width && image.height == g.height
    requires forall x, y :: 0 <= x < g.width && 0 <= y < g.height ==> image.At(x, y) == g.At(g.width - 1 - x, y)
    ensures Made(reg, rule, image) == Made(reg, rule, g)
  {
    forall x, y
      ensures Holds(image, x, y) == Holds(g, Turn(true, x) + (g.width - 1), y + 0)
    {
    }
    MadeMoved(reg, rule, g, image, true, g.width - 1, 0);
  }
}
