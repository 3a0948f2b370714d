/** The shaped half of crafting/match.go: trimmed grid against trimmed pattern, cell by cell. */
module Shaped {
  import opened Options
  import opened Grids
  import opened Recipes

  /** The pattern shows the shape on the plane, moved by an offset and perhaps mirrored. */
  ghost predicate Shows(p: Pattern, shape: Shape, mirrored: bool, dx: int, dy: int)
    requires p.Valid()
  {
    forall x, y {:trigger Spot(x, y)} :: Look(p, EMPTY_WANT, x, y) == ShapeAt(shape, Turn(mirrored, x) + dx, y + dy)
  }

  function PadCell(row: seq<Ingredient>, x: nat): Ingredient {
    if x < |row| then row[x] else Ingredient(EMPTY_ITEM, 0)
  }

  ghost predicate InPadding(shape: Shape, width: nat, i: int) {
    width > 0 && 0 <= i && i / width < |shape|
  }

  ghost function Padded(shape: Shape, width: nat, i: int): Ingredient
    requires InPadding(shape, width, i)
  {
    PadCell(shape[i / width], i % width)
  }

  method Widest(shape: Shape) returns (width: nat)
    ensures forall y :: 0 <= y < |shape| ==> |shape[y]| <= width
  {
    width := 0;
    for y := 0 to |shape|
      invariant forall k :: 0 <= k < y ==> |shape[k]| <= width
    {
      width := Max(width, |shape[y]|);
    }
  }

  /** Rows padded to the widest. */
  method Pad(shape: Shape) returns (p: Pattern)
    ensures p.Valid() && Shows(p, shape, false, 0, 0)
  {
    var width := Widest(shape);
    var cells: seq<Ingredient> := [];
    for y := 0 to |shape|
      invariant |cells| == y * width
      invariant forall i :: 0 <= i < |cells| ==> InPadding(shape, width, i) && cells[i] == Padded(shape, width, i)
    {
      for x := 0 to width
        invariant |cells| == y * width + x
        invariant forall i :: 0 <= i < |cells| ==> InPadding(shape, width, i) && cells[i] == Padded(shape, width, i)
      {
        RowColumn(x, y, width);
        cells := cells + [PadCell(shape[y], x)];
      }
      assert (y + 1) * width == y * width + width;
    }
    p := Raster(width, |shape|, cells);
    PaddingShows(p, shape);
  }

  lemma PaddingShows(p: Pattern, shape: Shape)
    requires p.Valid() && p.height == |shape|
    requires forall y :: 0 <= y < |shape| ==> |shape[y]| <= p.width
    requires forall i :: 0 <= i < |p.cells| ==> InPadding(shape, p.width, i) && p.cells[i] == Padded(shape, p.width, i)
    ensures Shows(p, shape, false, 0, 0)
  {
    forall x, y
      ensures Look(p, EMPTY_WANT, x, y) == ShapeAt(shape, Turn(false, x) + 0, y + 0)
    {
      if 0 <= x < p.width && 0 <= y < p.height {
        InRow(x, y, p.width, p.height);
        RowColumn(x, y, p.width);
      }
    }
  }

  ghost predicate WantsNothing(shape: Shape) {
    forall x, y :: ShapeAt(shape, x, y).None?
  }

  lemma PaddedBlank(padded: Pattern, shape: Shape)
    requires padded.Valid() && Shows(padded, shape, false, 0, 0)
    ensures Blank(padded, EMPTY_WANT) <==> WantsNothing(shape)
  {
    if Blank(padded, EMPTY_WANT) {
      forall x, y
        ensures ShapeAt(shape, x, y).None?
      {
        assert Spot(x, y);
        assert !Occupied(padded, EMPTY_WANT, (x, y));
      }
    } else {
      var at :| Occupied(padded, EMPTY_WANT, at);
      assert Spot(at.0, at.1);
      assert ShapeAt(shape, at.0, at.1).Some?;
    }
  }

  lemma TrimmedShows(p: Pattern, padded: Pattern, shape: Shape, dx: int, dy: int)
    requires p.Valid() && padded.Valid() && Shows(padded, shape, false, 0, 0)
    requires SamePicture(p, padded, EMPTY_WANT, dx, dy)
    ensures Shows(p, shape, false, dx, dy)
  {
    forall x, y
      ensures Look(p, EMPTY_WANT, x, y) == ShapeAt(shape, Turn(false, x) + dx, y + dy)
    {
      assert Look(p, EMPTY_WANT, x, y) == Look(padded, EMPTY_WANT, x + dx, y + dy);
      assert Spot(x + dx, y + dy);
    }
  }

  /** A shape with its rows padded and its empty edges cut off. */
  method PatternOf(shape: Shape) returns (p: Pattern, ghost dx: int, ghost dy: int)
    ensures p.Valid()
    ensures if WantsNothing(shape) then p == Raster(0, 0, [])
            else Tight(p, EMPTY_WANT) && Shows(p, shape, false, dx, dy)
  {
    var padded := Pad(shape);
    var offX, offY;
    p, offX, offY := Trim(padded, EMPTY_WANT);
    dx, dy := offX, offY;
    PaddedBlank(padded, shape);
    if !WantsNothing(shape) {
      TrimmedShows(p, padded, shape, dx, dy);
    }
  }

  ghost predicate InPattern(p: Pattern, i: int) {
    p.width > 0 && 0 <= i && i / p.width < p.height
  }

  ghost function Flipped(p: Pattern, i: int): Ingredient
    requires p.Valid() && InPattern(p, i)
  {
    p.At(p.width - 1 - i % p.width, i / p.width)
  }

  /** Flips a pattern horizontally. */
  method Mirror(p: Pattern) returns (flipped: Pattern)
    requires p.Valid()
    ensures flipped.Valid() && Flips(p, flipped)
  {
    var cells: seq<Ingredient> := [];
    for y := 0 to p.height
      invariant |cells| == y * p.width
      invariant forall i :: 0 <= i < |cells| ==> InPattern(p, i) && cells[i] == Flipped(p, i)
    {
      var x := p.width - 1;
      while x >= 0
        invariant -1 <= x < p.width && |cells| == y * p.width + (p.width - 1 - x)
        invariant forall i :: 0 <= i < |cells| ==> InPattern(p, i) && cells[i] == Flipped(p, i)
      {
        RowColumn(p.width - 1 - x, y, p.width);
        cells := cells + [p.At(x, y)];
        x := x - 1;
      }
      assert (y + 1) * p.width == y * p.width + p.width;
    }
    flipped := Raster(p.width, p.height, cells);
    forall x, y
      ensures Look(flipped, EMPTY_WANT, x, y) == Look(p, EMPTY_WANT, p.width - 1 - x, y)
    {
      if 0 <= x < p.width && 0 <= y < p.height {
        InRow(x, y, p.width, p.height);
        RowColumn(x, y, p.width);
      }
    }
  }

  ghost predicate AgreeInside(p: Pattern, t: Grid, rule: Rule)
    requires p.Valid() && t.Valid()
  {
    forall x, y :: 0 <= x < p.width && 0 <= y < p.height ==>
                     Agrees(Holds(t, x, y), Look(p, EMPTY_WANT, x, y), rule)
  }

  method ShapedMatch(p: Pattern, rule: Rule, t: Grid) returns (matched: bool)
    requires p.Valid() && t.Valid()
    ensures matched <==> CellTest(p, t, rule)
  {
    if p.width != t.width || p.height != t.height {
      return false;
    }
    for y := 0 to p.height
      invariant forall x', y' :: 0 <= x' < p.width && 0 <= y' < y ==>
                                   Agrees(Holds(t, x', y'), Look(p, EMPTY_WANT, x', y'), rule)
    {
      for x := 0 to p.width
        invariant forall x', y' :: 0 <= x' < p.width && 0 <= y' && (y' < y || (y' == y && x' < x)) ==>
                                     Agrees(Holds(t, x', y'), Look(p, EMPTY_WANT, x', y'), rule)
      {
        var want, cell := p.At(x, y), t.At(x, y);
        assert Holds(t, x, y) == if cell.Empty() then None else Some(cell);
        if want.id == EMPTY_ITEM {
          if !cell.Empty() {
            assert !Agrees(Holds(t, x, y), Look(p, EMPTY_WANT, x, y), rule);
            return false;
          }
        } else if cell.Empty() || !rule(cell, want) {
          assert !Agrees(Holds(t, x, y), Look(p, EMPTY_WANT, x, y), rule);
          return false;
        }
      }
    }
    return true;
  }

  // ----- Why trimming is the same as sliding -----

  ghost predicate AgreesAt(t: Grid, p: Pattern, rule: Rule, dx: int, dy: int)
    requires t.Valid() && p.Valid()
  {
    forall x, y :: Agrees(Holds(t, x, y), Look(p, EMPTY_WANT, x + dx, y + dy), rule)
  }

  lemma LandsInPattern(t: Grid, p: Pattern, rule: Rule, dx: int, dy: int, x: int, y: int)
    requires t.Valid() && p.Valid() && AgreesAt(t, p, rule, dx, dy) && Occupied(t, EMPTY_CELL, (x, y))
    ensures 0 <= x + dx < p.width && 0 <= y + dy < p.height
  {
    assert Agrees(Holds(t, x, y), Look(p, EMPTY_WANT, x + dx, y + dy), rule);
  }

  lemma LandsInGrid(t: Grid, p: Pattern, rule: Rule, dx: int, dy: int, x: int, y: int)
    requires t.Valid() && p.Valid() && AgreesAt(t, p, rule, dx, dy) && Occupied(p, EMPTY_WANT, (x, y))
    ensures 0 <= x - dx < t.width && 0 <= y - dy < t.height
  {
    assert Agrees(Holds(t, x - dx, y - dy), Look(p, EMPTY_WANT, x - dx + dx, y - dy + dy), rule);
  }

  lemma GridColumn(t: Grid, p: Pattern, rule: Rule, dx: int, dy: int, x: int)
    requires t.Valid() && p.Valid() && AgreesAt(t, p, rule, dx, dy)
    requires exists y :: Occupied(t, EMPTY_CELL, (x, y))
    ensures 0 <= x + dx < p.width
  {
    var y :| Occupied(t, EMPTY_CELL, (x, y));
    LandsInPattern(t, p, rule, dx, dy, x, y);
  }

  lemma GridRow(t: Grid, p: Pattern, rule: Rule, dx: int, dy: int, y: int)
    requires t.Valid() && p.Valid() && AgreesAt(t, p, rule, dx, dy)
    requires exists x :: Occupied(t, EMPTY_CELL, (x, y))
    ensures 0 <= y + dy < p.height
  {
    var x :| Occupied(t, EMPTY_CELL, (x, y));
    LandsInPattern(t, p, rule, dx, dy, x, y);
  }

  lemma PatternColumn(t: Grid, p: Pattern, rule: Rule, dx: int, dy: int, x: int)
    requires t.Valid() && p.Valid() && AgreesAt(t, p, rule, dx, dy)
    requires exists y :: Occupied(p, EMPTY_WANT, (x, y))
    ensures 0 <= x - dx < t.width
  {
    var y :| Occupied(p, EMPTY_WANT, (x, y));
    LandsInGrid(t, p, rule, dx, dy, x, y);
  }

  lemma PatternRow(t: Grid, p: Pattern, rule: Rule, dx: int, dy: int, y: int)
    requires t.Valid() && p.Valid() && AgreesAt(t, p, rule, dx, dy)
    requires exists x :: Occupied(p, EMPTY_WANT, (x, y))
    ensures 0 <= y - dy < t.height
  {
    var x :| Occupied(p, EMPTY_WANT, (x, y));
    LandsInGrid(t, p, rule, dx, dy, x, y);
  }

  lemma GridFitsPattern(t: Grid, p: Pattern, rule: Rule, dx: int, dy: int)
    requires t.Valid() && p.Valid() && Tight(t, EMPTY_CELL) && AgreesAt(t, p, rule, dx, dy)
    ensures 0 <= dx <= p.width - t.width && 0 <= dy <= p.height - t.height
  {
    GridColumn(t, p, rule, dx, dy, 0);
    GridColumn(t, p, rule, dx, dy, t.width - 1);
    GridRow(t, p, rule, dx, dy, 0);
    GridRow(t, p, rule, dx, dy, t.height - 1);
  }

  lemma PatternFitsGrid(t: Grid, p: Pattern, rule: Rule, dx: int, dy: int)
    requires t.Valid() && p.Valid() && Tight(p, EMPTY_WANT) && AgreesAt(t, p, rule, dx, dy)
    ensures 0 <= -dx <= t.width - p.width && 0 <= -dy <= t.height - p.height
  {
    PatternColumn(t, p, rule, dx, dy, 0);
    PatternColumn(t, p, rule, dx, dy, p.width - 1);
    PatternRow(t, p, rule, dx, dy, 0);
    PatternRow(t, p, rule, dx, dy, p.height - 1);
  }

  /** Two tight pictures that agree at some offset agree at none but zero, and are the same size. */
  lemma TightFixesOffset(t: Grid, p: Pattern, rule: Rule, dx: int, dy: int)
    requires t.Valid() && p.Valid() && Tight(t, EMPTY_CELL) && Tight(p, EMPTY_WANT) && AgreesAt(t, p, rule, dx, dy)
    ensures dx == 0 && dy == 0 && t.width == p.width && t.height == p.height
  {
    GridFitsPattern(t, p, rule, dx, dy);
    PatternFitsGrid(t, p, rule, dx, dy);
  }

  lemma AgreeInsideSlides(t: Grid, p: Pattern, rule: Rule)
    requires t.Valid() && p.Valid() && p.width == t.width && p.height == t.height && AgreeInside(p, t, rule)
    ensures AgreesAt(t, p, rule, 0, 0)
  {
    forall x, y
      ensures Agrees(Holds(t, x, y), Look(p, EMPTY_WANT, x + 0, y + 0), rule)
    {
      if 0 <= x < p.width && 0 <= y < p.height {
        assert Agrees(Holds(t, x, y), Look(p, EMPTY_WANT, x, y), rule);
      }
    }
  }

  lemma SlidesAgreeInside(t: Grid, p: Pattern, rule: Rule)
    requires t.Valid() && p.Valid() && AgreesAt(t, p, rule, 0, 0)
    ensures AgreeInside(p, t, rule)
  {
    forall x, y | 0 <= x < p.width && 0 <= y < p.height
      ensures Agrees(Holds(t, x, y), Look(p, EMPTY_WANT, x, y), rule)
    {
      assert Agrees(Holds(t, x, y), Look(p, EMPTY_WANT, x + 0, y + 0), rule);
    }
  }

  /** The cell-by-cell test on two tight pictures is agreement at some offset of the plane. */
  lemma TightMatchIsSliding(t: Grid, p: Pattern, rule: Rule)
    requires t.Valid() && p.Valid() && Tight(t, EMPTY_CELL) && Tight(p, EMPTY_WANT)
    ensures p.width == t.width && p.height == t.height && AgreeInside(p, t, rule) <==>
            exists dx, dy :: AgreesAt(t, p, rule, dx, dy)
  {
    if p.width == t.width && p.height == t.height && AgreeInside(p, t, rule) {
      AgreeInsideSlides(t, p, rule);
    }
    if exists dx, dy :: AgreesAt(t, p, rule, dx, dy) {
      var dx, dy :| AgreesAt(t, p, rule, dx, dy);
      TightFixesOffset(t, p, rule, dx, dy);
      SlidesAgreeInside(t, p, rule);
    }
  }

  /** Sliding the trimmed pictures over each other is sliding the shape over the whole grid. */
  lemma SlidingTrimmed(g: Grid, t: Grid, a: int, b: int, shape: Shape,
                       p: Pattern, mirrored: bool, c: int, d: int, rule: Rule)
    requires g.Valid() && t.Valid() && p.Valid()
    requires SamePicture(t, g, EMPTY_CELL, a, b) && Shows(p, shape, mirrored, c, d)
    ensures (exists dx, dy :: Placed(g, shape, rule, mirrored, dx, dy)) <==>
            (exists dx, dy :: AgreesAt(t, p, rule, dx, dy))
  {
    if exists dx, dy :: Placed(g, shape, rule, mirrored, dx, dy) {
      var dx, dy :| Placed(g, shape, rule, mirrored, dx, dy);
      var ex, ey := Turn(mirrored, Turn(mirrored, a) + dx - c), b + dy - d;
      forall x, y
        ensures Agrees(Holds(t, x, y), Look(p, EMPTY_WANT, x + ex, y + ey), rule)
      {
        assert Spot(x + ex, y + ey);
        assert Holds(t, x, y) == Holds(g, x + a, y + b);
        assert Agrees(Holds(g, x + a, y + b), ShapeAt(shape, Turn(mirrored, x + a) + dx, y + b + dy), rule);
      }
      assert AgreesAt(t, p, rule, ex, ey);
    }
    if exists dx, dy :: AgreesAt(t, p, rule, dx, dy) {
      var ex, ey :| AgreesAt(t, p, rule, ex, ey);
      var dx, dy := Turn(mirrored, ex - a) + c, ey - b + d;
      forall x, y
        ensures Agrees(Holds(g, x, y), ShapeAt(shape, Turn(mirrored, x) + dx, y + dy), rule)
      {
        assert Spot(x - a + ex, y - b + ey);
        assert Holds(t, x - a, y - b) == Holds(g, x - a + a, y - b + b);
        assert Agrees(Holds(t, x - a, y - b), Look(p, EMPTY_WANT, x - a + ex, y - b + ey), rule);
      }
      assert Placed(g, shape, rule, mirrored, dx, dy);
    }
  }

  lemma MirrorOccupied(p: Pattern, flipped: Pattern, x: int, y: int)
    requires p.Valid() && flipped.Valid() && Occupied(p, EMPTY_WANT, (x, y)) && Flips(p, flipped)
    ensures Occupied(flipped, EMPTY_WANT, (p.width - 1 - x, y))
  {
    assert Look(flipped, EMPTY_WANT, p.width - 1 - x, y) == Look(p, EMPTY_WANT, p.width - 1 - (p.width - 1 - x), y);
  }

  ghost predicate Flips(p: Pattern, flipped: Pattern)
    requires p.Valid() && flipped.Valid()
  {
    && flipped.width == p.width && flipped.height == p.height
    && forall x, y :: Look(flipped, EMPTY_WANT, x, y) == Look(p, EMPTY_WANT, p.width - 1 - x, y)
  }

  lemma MirrorColumn(p: Pattern, flipped: Pattern, x: int, x': int)
    requires p.Valid() && flipped.Valid() && Flips(p, flipped) && x' == p.width - 1 - x
    requires exists y :: Occupied(p, EMPTY_WANT, (x, y))
    ensures exists y :: Occupied(flipped, EMPTY_WANT, (x', y))
  {
    var y :| Occupied(p, EMPTY_WANT, (x, y));
    MirrorOccupied(p, flipped, x, y);
    assert Occupied(flipped, EMPTY_WANT, (x', y));
  }

  lemma MirrorRow(p: Pattern, flipped: Pattern, y: int)
    requires p.Valid() && flipped.Valid() && Flips(p, flipped)
    requires exists x :: Occupied(p, EMPTY_WANT, (x, y))
    ensures exists x :: Occupied(flipped, EMPTY_WANT, (x, y))
  {
    var x :| Occupied(p, EMPTY_WANT, (x, y));
    MirrorOccupied(p, flipped, x, y);
    assert Occupied(flipped, EMPTY_WANT, (p.width - 1 - x, y));
  }

  lemma MirrorTight(p: Pattern, flipped: Pattern)
    requires p.Valid() && flipped.Valid() && Tight(p, EMPTY_WANT) && Flips(p, flipped)
    ensures Tight(flipped, EMPTY_WANT)
  {
    MirrorColumn(p, flipped, 0, flipped.width - 1);
    MirrorColumn(p, flipped, p.width - 1, 0);
    MirrorRow(p, flipped, 0);
    MirrorRow(p, flipped, p.height - 1);
  }

  /** Mirroring a pattern mirrors the picture it shows, and keeps it tight. */
  lemma MirrorShows(p: Pattern, flipped: Pattern, shape: Shape, c: int, d: int)
    requires p.Valid() && flipped.Valid() && Tight(p, EMPTY_WANT) && Shows(p, shape, false, c, d) && Flips(p, flipped)
    ensures Tight(flipped, EMPTY_WANT) && Shows(flipped, shape, true, p.width - 1 + c, d)
  {
    MirrorTight(p, flipped);
    forall x, y
      ensures Look(flipped, EMPTY_WANT, x, y) == ShapeAt(shape, Turn(true, x) + (p.width - 1 + c), y + d)
    {
      assert Spot(p.width - 1 - x, y);
    }
  }

  /** A shape wanting nothing crafts only from an empty grid. */
  lemma WantingNothing(g: Grid, shape: Shape, rule: Rule)
    requires g.Valid() && WantsNothing(shape) && ShapedCrafts(g, shape, rule)
    ensures Blank(g, EMPTY_CELL)
  {
    var m, dx, dy :| Placed(g, shape, rule, m, dx, dy);
    forall at
      ensures !Occupied(g, EMPTY_CELL, at)
    {
      assert Agrees(Holds(g, at.0, at.1), ShapeAt(shape, Turn(m, at.0) + dx, at.1 + dy), rule);
    }
  }

  /** The shape, or its mirror image, lies somewhere on the grid. */
  ghost predicate LiesOn(g: Grid, shape: Shape, rule: Rule, mirrored: bool)
    requires g.Valid()
  {
    exists dx, dy :: Placed(g, shape, rule, mirrored, dx, dy)
  }

  lemma CraftsEitherWay(g: Grid, shape: Shape, rule: Rule)
    requires g.Valid()
    ensures ShapedCrafts(g, shape, rule) <==> LiesOn(g, shape, rule, false) || LiesOn(g, shape, rule, true)
  {
    if ShapedCrafts(g, shape, rule) {
      var mirrored, dx, dy :| Placed(g, shape, rule, mirrored, dx, dy);
      assert LiesOn(g, shape, rule, mirrored);
    }
  }

  /** What the cell-by-cell test tests. */
  ghost predicate CellTest(p: Pattern, t: Grid, rule: Rule)
    requires p.Valid() && t.Valid()
  {
    p.width == t.width && p.height == t.height && AgreeInside(p, t, rule)
  }

  /** The cell-by-cell test decides it for one orientation. */
  lemma CellTestDecides(g: Grid, t: Grid, offX: int, offY: int, shape: Shape,
                        p: Pattern, mirrored: bool, c: int, d: int, rule: Rule)
    requires g.Valid() && t.Valid() && p.Valid()
    requires Tight(t, EMPTY_CELL) && SamePicture(t, g, EMPTY_CELL, offX, offY)
    requires Tight(p, EMPTY_WANT) && Shows(p, shape, mirrored, c, d)
    ensures CellTest(p, t, rule) <==> LiesOn(g, shape, rule, mirrored)
  {
    TightMatchIsSliding(t, p, rule);
    SlidingTrimmed(g, t, offX, offY, shape, p, mirrored, c, d, rule);
  }

  lemma EitherTestDecides(g: Grid, t: Grid, offX: int, offY: int, shape: Shape,
                          p: Pattern, flipped: Pattern, c: int, d: int, rule: Rule)
    requires g.Valid() && t.Valid() && p.Valid() && flipped.Valid()
    requires Tight(t, EMPTY_CELL) && SamePicture(t, g, EMPTY_CELL, offX, offY)
    requires Tight(p, EMPTY_WANT) && Shows(p, shape, false, c, d) && Flips(p, flipped)
    ensures ShapedCrafts(g, shape, rule) <==> CellTest(p, t, rule) || CellTest(flipped, t, rule)
  {
    CraftsEitherWay(g, shape, rule);
    CellTestDecides(g, t, offX, offY, shape, p, false, c, d, rule);
    MirrorShows(p, flipped, shape, c, d);
    CellTestDecides(g, t, offX, offY, shape, flipped, true, p.width - 1 + c, d, rule);
  }

  /** What the trimmed pattern and its mirror image are to the shape. */
  ghost predicate Pictures(p: Pattern, flipped: Pattern, shape: Shape, c: int, d: int)
    requires p.Valid() && flipped.Valid()
  {
    && Flips(p, flipped)
    && if WantsNothing(shape) then p == Raster(0, 0, []) else Tight(p, EMPTY_WANT) && Shows(p, shape, false, c, d)
  }

  lemma PicturesDecide(g: Grid, t: Grid, offX: int, offY: int, shape: Shape,
                       p: Pattern, flipped: Pattern, c: int, d: int, rule: Rule)
    requires g.Valid() && t.Valid() && p.Valid() && flipped.Valid() && !Blank(g, EMPTY_CELL)
    requires Tight(t, EMPTY_CELL) && SamePicture(t, g, EMPTY_CELL, offX, offY) && Pictures(p, flipped, shape, c, d)
    ensures ShapedCrafts(g, shape, rule) <==> CellTest(p, t, rule) || CellTest(flipped, t, rule)
  {
    if !WantsNothing(shape) {
      EitherTestDecides(g, t, offX, offY, shape, p, flipped, c, d, rule);
    } else if ShapedCrafts(g, shape, rule) {
      WantingNothing(g, shape, rule);
    }
  }

  method TestEither(p: Pattern, flipped: Pattern, rule: Rule, t: Grid) returns (matched: bool)
    requires p.Valid() && flipped.Valid() && t.Valid()
    ensures matched <==> CellTest(p, t, rule) || CellTest(flipped, t, rule)
  {
    matched := ShapedMatch(p, rule, t);
    if !matched {
      matched := ShapedMatch(flipped, rule, t);
    }
  }

  /**
   * The shaped test on a grid holding something: it succeeds exactly when the shape or its mirror image can be
   * laid on the grid at some offset with every ingredient met and every other cell empty.
   */
  method MatchShape(shape: Shape, rule: Rule, g: Grid, trimmed: Grid, ghost offX: int, ghost offY: int)
    returns (matched: bool)
    requires g.Valid() && trimmed.Valid() && !Blank(g, EMPTY_CELL)
    requires Tight(trimmed, EMPTY_CELL) && SamePicture(trimmed, g, EMPTY_CELL, offX, offY)
    requires trimmed.width <= g.width && trimmed.height <= g.height
    ensures matched <==> ShapedCrafts(g, shape, rule)
  {
    var p, c, d := PatternOf(shape);
    var flipped := Mirror(p);
    PicturesDecide(g, trimmed, offX, offY, shape, p, flipped, c, d, rule);
    if p.width > g.width || p.height > g.height {
      return false;
    }
    matched := TestEither(p, flipped, rule, trimmed);
  }
}
