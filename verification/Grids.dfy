/** Row-major grids and their trimming: crafting/grid.go, and the same code for patterns in crafting/match.go. */
module Grids {
  import opened Options

  /**
   * A rectangle of values stored row by row. A crafting grid is a raster of cells and a shaped recipe's pattern
   * a raster of ingredients; `blank` says which values count as nothing.
   */
  datatype Raster<T> = Raster(width: nat, height: nat, cells: seq<T>) {
    predicate Valid() {
      |cells| == height * width
    }

    function At(x: int, y: int): T
      requires Valid() && 0 <= x < width && 0 <= y < height
    {
      InRow(x, y, width, height);
      cells[y * width + x]
    }
  }

  lemma InRow(x: int, y: int, width: nat, height: nat)
    requires 0 <= x < width && 0 <= y < height
    ensures 0 <= y * width + x < height * width
  {
    assert (y + 1) * width <= height * width;
  }

  lemma MulAtLeast(k: int, width: int)
    requires k >= 1 && width > 0
    ensures k * width >= width
  {
  }

  lemma SameQuotient(y: int, x: int, y': int, x': int, width: int)
    requires 0 <= x < width && 0 <= x' < width && y * width + x == y' * width + x'
    ensures y == y' && x == x'
  {
    assert (y - y') * width == x' - x && (y' - y) * width == x - x';
    if y > y' {
      MulAtLeast(y - y', width);
    } else if y < y' {
      MulAtLeast(y' - y, width);
    }
  }

  lemma RowColumn(x: int, y: int, width: nat)
    requires 0 <= x < width
    ensures (y * width + x) / width == y && (y * width + x) % width == x
  {
    var n := y * width + x;
    assert n == n / width * width + n % width;
    SameQuotient(n / width, n % width, y, x, width);
  }

  /** What lies at a position of the whole plane: outside the raster, and at a blank value, nothing. */
  function Look<T>(r: Raster<T>, blank: T -> bool, x: int, y: int): Option<T>
    requires r.Valid()
  {
    if 0 <= x < r.width && 0 <= y < r.height && !blank(r.At(x, y)) then Some(r.At(x, y)) else None
  }

  ghost predicate Occupied<T>(r: Raster<T>, blank: T -> bool, at: (int, int))
    requires r.Valid()
  {
    Look(r, blank, at.0, at.1).Some?
  }

  /** `small` shows the same picture as `large`, moved by (dx, dy). */
  ghost predicate SamePicture<T>(small: Raster<T>, large: Raster<T>, blank: T -> bool, dx: int, dy: int)
    requires small.Valid() && large.Valid()
  {
    forall x, y {:trigger Look(small, blank, x, y)} :: Look(small, blank, x, y) == Look(large, blank, x + dx, y + dy)
  }

  ghost predicate Blank<T>(r: Raster<T>, blank: T -> bool)
    requires r.Valid()
  {
    forall at :: !Occupied(r, blank, at)
  }

  /** The scan so far, row by row, has met the position. */
  ghost predicate Scanned(at: (int, int), x: int, y: int) {
    at.1 < y || (at.1 == y && at.0 < x)
  }

  /** The bounds a scan has found: every occupied position it met is inside, and each bound is attained. */
  datatype Box = Box(minX: int, minY: int, maxX: int, maxY: int)

  ghost predicate Encloses(box: Box, at: (int, int)) {
    box.minX <= at.0 <= box.maxX && box.minY <= at.1 <= box.maxY
  }

  ghost predicate Bounds<T>(r: Raster<T>, blank: T -> bool, box: Box, x: int, y: int)
    requires r.Valid()
  {
    && (forall at :: Occupied(r, blank, at) && Scanned(at, x, y) ==> Encloses(box, at))
    && (box.maxX < 0 ==> box == Box(r.width, r.height, -1, -1))
    && (box.maxX >= 0 ==> Attained(r, blank, box))
  }

  ghost predicate Attained<T>(r: Raster<T>, blank: T -> bool, box: Box)
    requires r.Valid()
  {
    && (exists y :: Occupied(r, blank, (box.minX, y)))
    && (exists y :: Occupied(r, blank, (box.maxX, y)))
    && (exists x :: Occupied(r, blank, (x, box.minY)))
    && (exists x :: Occupied(r, blank, (x, box.maxY)))
  }

  /** Something lies in the first and last row and column, so no smaller rectangle holds everything. */
  ghost predicate Tight<T>(r: Raster<T>, blank: T -> bool)
    requires r.Valid()
  {
    Attained(r, blank, Box(0, 0, r.width - 1, r.height - 1))
  }

  function Min(a: int, b: int): int {
    if a < b then a else b
  }

  function Max(a: int, b: int): int {
    if a > b then a else b
  }

  method FindBounds<T>(r: Raster<T>, blank: T -> bool) returns (box: Box)
    requires r.Valid()
    ensures Bounds(r, blank, box, 0, r.height)
  {
    box := Box(r.width, r.height, -1, -1);
    for y := 0 to r.height
      invariant Bounds(r, blank, box, 0, y)
    {
      for x := 0 to r.width
        invariant Bounds(r, blank, box, x, y)
      {
        ghost var was := box;
        if !blank(r.At(x, y)) {
          box := Box(Min(box.minX, x), Min(box.minY, y), Max(box.maxX, x), Max(box.maxY, y));
          assert Occupied(r, blank, (x, y));
        }
        BoundsStep(r, blank, was, x, y, box);
      }
      assert forall at :: Occupied(r, blank, at) && Scanned(at, 0, y + 1) ==> Scanned(at, r.width, y);
    }
  }

  lemma BoundsStep<T>(r: Raster<T>, blank: T -> bool, was: Box, x: int, y: int, box: Box)
    requires r.Valid() && 0 <= x < r.width && 0 <= y < r.height && Bounds(r, blank, was, x, y)
    requires box == if Occupied(r, blank, (x, y))
                    then Box(Min(was.minX, x), Min(was.minY, y), Max(was.maxX, x), Max(was.maxY, y)) else was
    ensures Bounds(r, blank, box, x + 1, y)
  {
    forall at | Occupied(r, blank, at) && Scanned(at, x + 1, y)
      ensures Encloses(box, at)
    {
      if !Scanned(at, x, y) {
        assert at == (x, y);
      }
    }
    if Occupied(r, blank, (x, y)) && was.maxX < 0 {
      assert box == Box(x, y, x, y);
    }
  }

  /** The cells of the rectangle from (minX, minY), read row by row. */
  method Cut<T>(r: Raster<T>, minX: int, minY: int, width: nat, height: nat) returns (cut: Raster<T>)
    requires r.Valid() && 0 <= minX <= minX + width <= r.width && 0 <= minY <= minY + height <= r.height
    ensures cut.Valid() && cut.width == width && cut.height == height
    ensures forall x, y :: 0 <= x < width && 0 <= y < height ==> cut.At(x, y) == r.At(minX + x, minY + y)
  {
    var cells: seq<T> := [];
    for y := 0 to height
      invariant |cells| == y * width
      invariant forall i :: 0 <= i < |cells| ==>
                              && InCut(r, minX, minY, width, height, i)
                              && cells[i] == CutCell(r, minX, minY, width, height, i)
    {
      for x := 0 to width
        invariant |cells| == y * width + x
        invariant forall i :: 0 <= i < |cells| ==>
                                && InCut(r, minX, minY, width, height, i)
                                && cells[i] == CutCell(r, minX, minY, width, height, i)
      {
        RowColumn(x, y, width);
        cells := cells + [r.At(minX + x, minY + y)];
      }
      assert (y + 1) * width == y * width + width;
    }
    cut := Raster(width, height, cells);
    forall x, y | 0 <= x < width && 0 <= y < height
      ensures cut.At(x, y) == r.At(minX + x, minY + y)
    {
      InRow(x, y, width, height);
      RowColumn(x, y, width);
    }
  }

  ghost predicate InCut<T>(r: Raster<T>, minX: int, minY: int, width: nat, height: nat, i: int) {
    width > 0 && 0 <= i && i / width < height
  }

  ghost function CutCell<T>(r: Raster<T>, minX: int, minY: int, width: nat, height: nat, i: int): T
    requires r.Valid() && 0 <= minX <= minX + width <= r.width && 0 <= minY <= minY + height <= r.height
    requires InCut(r, minX, minY, width, height, i)
  {
    r.At(minX + i % width, minY + i / width)
  }

  /**
   * The smallest rectangle holding everything, and where it was cut from; a raster with nothing in it trims to
   * the empty one.
   */
  method Trim<T>(r: Raster<T>, blank: T -> bool) returns (trimmed: Raster<T>, offX: nat, offY: nat)
    requires r.Valid()
    ensures trimmed.Valid()
    ensures if Blank(r, blank) then trimmed == Raster(0, 0, []) && offX == offY == 0
            else Tight(trimmed, blank) && SamePicture(trimmed, r, blank, offX, offY)
    ensures offX + trimmed.width <= r.width && offY + trimmed.height <= r.height
    ensures forall x, y :: 0 <= x < trimmed.width && 0 <= y < trimmed.height ==>
                             trimmed.At(x, y) == r.At(offX + x, offY + y)
  {
    var box := FindBounds(r, blank);
    assert forall at :: Occupied(r, blank, at) ==> Scanned(at, 0, r.height);
    if box.maxX < 0 {
      return Raster(0, 0, []), 0, 0;
    }
    InsideRaster(r, blank, box);
    trimmed := Cut(r, box.minX, box.minY, box.maxX - box.minX + 1, box.maxY - box.minY + 1);
    offX, offY := box.minX, box.minY;
    CutShowsAll(r, blank, box, trimmed);
  }

  lemma InsideRaster<T>(r: Raster<T>, blank: T -> bool, box: Box)
    requires r.Valid() && Attained(r, blank, box)
    requires forall at :: Occupied(r, blank, at) ==> Encloses(box, at)
    ensures 0 <= box.minX <= box.maxX < r.width && 0 <= box.minY <= box.maxY < r.height
  {
    var y0 :| Occupied(r, blank, (box.minX, y0));
    var y1 :| Occupied(r, blank, (box.maxX, y1));
    var x0 :| Occupied(r, blank, (x0, box.minY));
    var x1 :| Occupied(r, blank, (x1, box.maxY));
  }

  lemma CutShowsAll<T>(r: Raster<T>, blank: T -> bool, box: Box, cut: Raster<T>)
    requires r.Valid() && cut.Valid() && Attained(r, blank, box)
    requires forall at :: Occupied(r, blank, at) ==> Encloses(box, at)
    requires 0 <= box.minX <= box.maxX < r.width && 0 <= box.minY <= box.maxY < r.height
    requires cut.width == box.maxX - box.minX + 1 && cut.height == box.maxY - box.minY + 1
    requires forall x, y :: 0 <= x < cut.width && 0 <= y < cut.height ==>
                              cut.At(x, y) == r.At(box.minX + x, box.minY + y)
    ensures SamePicture(cut, r, blank, box.minX, box.minY) && Tight(cut, blank)
  {
    forall x, y
      ensures Look(cut, blank, x, y) == Look(r, blank, x + box.minX, y + box.minY)
    {
      assert Occupied(r, blank, (x + box.minX, y + box.minY)) ==> Encloses(box, (x + box.minX, y + box.minY));
    }
    var y0 :| Occupied(r, blank, (box.minX, y0));
    assert Occupied(cut, blank, (0, y0 - box.minY));
    var y1 :| Occupied(r, blank, (box.maxX, y1));
    assert Occupied(cut, blank, (cut.width - 1, y1 - box.minY));
    var x0 :| Occupied(r, blank, (x0, box.minY));
    assert Occupied(cut, blank, (x0 - box.minX, 0));
    var x1 :| Occupied(r, blank, (x1, box.maxY));
    assert Occupied(cut, blank, (x1 - box.minX, cut.height - 1));
  }
}
