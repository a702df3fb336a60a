/**
 * Tileset geometry of src/tileset.rs: where each tile sits in the sheet, where
 * a cell is drawn, how large a level is drawn, and the choice between the big
 * and the small tileset. The sheet texture itself is not modelled.
 */
module Tiles {
  import opened Wrappers
  import opened Game
  import opened Shadows

  /** What can be drawn in a cell. */
  datatype Tile = Floor | Wall | Rock | Square | Player | Shadow(flags: ShadowFlags)

  /** A pixel rectangle: origin and size. */
  datatype Rect = Rect(x: int, y: int, width: nat, height: nat)

  /** Whether two rectangles share a pixel. */
  predicate Overlap(a: Rect, b: Rect)
  {
    a.x < b.x + b.width && b.x < a.x + a.width && a.y < b.y + b.height && b.y < a.y + a.height
  }

  /**
   * A tile sheet: the size of one tile, the height by which stacked rows
   * overlap (`effectiveHeight`) and the offset of items drawn on the floor.
   */
  datatype Tileset = Tileset(width: nat, height: nat, effectiveHeight: nat, offset: int)
  {
    /** The (column, row) of a tile in the sheet; only single shadow flags have a tile. */
    function Location(tile: Tile): (r: Option<(nat, nat)>)
      ensures !tile.Shadow? ==> r.Some?
      ensures tile.Shadow? ==> (r.Some? <==> IsSingleBit(tile.flags) && tile.flags & !0xFF == 0)
    {
      match tile
      case Floor => Some((0, 0))
      case Wall => Some((0, 2))
      case Rock => Some((2, 0))
      case Square => Some((1, 0))
      case Player => Some((3, 0))
      case Shadow(flags) =>
        if flags == N_EDGE then Some((4, 0))
        else if flags == S_EDGE then Some((5, 0))
        else if flags == E_EDGE then Some((0, 1))
        else if flags == W_EDGE then Some((1, 1))
        else if flags == NE_CORNER then Some((2, 1))
        else if flags == NW_CORNER then Some((3, 1))
        else if flags == SE_CORNER then Some((4, 1))
        else if flags == SW_CORNER then Some((5, 1))
        else None
    }

    /** The top-left pixel at which the cell `pos` is drawn. */
    function GetCoordinates(pos: Position): (r: (int, int))
      ensures pos.column >= 0 && pos.row >= 0 ==> r.0 >= 0 && r.1 >= 0
    {
      (width * pos.column, effectiveHeight * pos.row)
    }

    /** The pixel size of a drawn level of `extents` columns and rows. */
    function GetRenderingSize(extents: (int, int)): (r: (nat, nat))
      requires extents.0 >= 0 && extents.1 >= 0
      ensures extents.0 == 0 ==> r.0 == 0
      ensures extents.1 == 0 ==> r.1 == 0
      ensures extents.1 > 0 ==> r.1 >= height
    {
      (extents.0 * width, if extents.1 > 0 then height + (extents.1 - 1) * effectiveHeight else 0)
    }

    /** The rectangle of the sheet tile at column `col` and row `row`. */
    function GetTileRect(col: nat, row: nat): (r: Option<Rect>)
      ensures r.Some? && r.value.width == width && r.value.height == height
    {
      Some(Rect(col * width, row * height, width, height))
    }
  }

  /** No two tiles share a place in the sheet. */
  lemma LocationsDistinct(ts: Tileset, t1: Tile, t2: Tile)
    requires ts.Location(t1).Some? && ts.Location(t1) == ts.Location(t2)
    ensures t1 == t2
  {
  }

  /** One cell to the right is one tile width further; one row down is one effective height further. */
  lemma CoordinatesOfNeighbors(ts: Tileset, pos: Position)
    ensures ts.GetCoordinates(pos.Neighbor(Right)) == (ts.GetCoordinates(pos).0 + ts.width, ts.GetCoordinates(pos).1)
    ensures ts.GetCoordinates(pos.Neighbor(Down)) == (ts.GetCoordinates(pos).0, ts.GetCoordinates(pos).1 + ts.effectiveHeight)
  {
  }

  /** `a < b` cells of size `w` end no later than the start of cell `b`. */
  lemma CellBefore(a: int, b: int, w: nat)
    requires a < b
    ensures a * w + w <= b * w
  {
    assert b * w - (a * w + w) == (b - a - 1) * w;
  }

  /** Every tile of a cell inside the extents is drawn inside the rendering size. */
  lemma RenderingSizeCoversCells(ts: Tileset, extents: (int, int), pos: Position)
    requires 0 <= pos.column < extents.0 && 0 <= pos.row < extents.1
    ensures var (x, y) := ts.GetCoordinates(pos);
      var (w, h) := ts.GetRenderingSize(extents);
      0 <= x && x + ts.width <= w && 0 <= y && y + ts.height <= h
  {
    CellBefore(pos.column, extents.0, ts.width);
    assert ts.width * pos.column == pos.column * ts.width;
    assert (extents.1 - 1) * ts.effectiveHeight - ts.effectiveHeight * pos.row == (extents.1 - 1 - pos.row) * ts.effectiveHeight;
  }

  /**
   * The rendering size is tight: the tile of the last cell of a non-empty
   * level ends exactly at the rendering size.
   */
  lemma RenderingSizeTight(ts: Tileset, extents: (int, int))
    requires extents.0 > 0 && extents.1 > 0
    ensures var (x, y) := ts.GetCoordinates(Position(extents.1 - 1, extents.0 - 1));
      var (w, h) := ts.GetRenderingSize(extents);
      x + ts.width == w && y + ts.height == h
  {
    assert ts.width * (extents.0 - 1) + ts.width == extents.0 * ts.width;
    assert ts.effectiveHeight * (extents.1 - 1) == (extents.1 - 1) * ts.effectiveHeight;
  }

  /** The sheet rectangles of two different sheet places never overlap. */
  lemma TileRectsDisjoint(ts: Tileset, c1: nat, r1: nat, c2: nat, r2: nat)
    requires ts.width > 0 && ts.height > 0 && (c1, r1) != (c2, r2)
    ensures !Overlap(ts.GetTileRect(c1, r1).value, ts.GetTileRect(c2, r2).value)
  {
    if c1 < c2 {
      CellBefore(c1, c2, ts.width);
    } else if c2 < c1 {
      CellBefore(c2, c1, ts.width);
    } else if r1 < r2 {
      CellBefore(r1, r2, ts.height);
    } else {
      CellBefore(r2, r1, ts.height);
    }
  }

  /** Levels wider or taller than this many cells are drawn with the small tileset. */
  const THRESHOLD := 40

  /** Chooses between two tilesets according to the current level's extents. */
  class TilesetSelector {
    var extents: (int, int)
    const bigSet: Tileset
    const smallSet: Tileset

    constructor (bigSet: Tileset, smallSet: Tileset)
      ensures extents == (0, 0) && this.bigSet == bigSet && this.smallSet == smallSet
      ensures Select() == bigSet
    {
      extents := (0, 0);
      this.bigSet := bigSet;
      this.smallSet := smallSet;
    }

    method Reset(extents: (int, int))
      modifies this
      ensures this.extents == extents
    {
      this.extents := extents;
    }

    /** The small set once either dimension exceeds the threshold, the big set otherwise. */
    function Select(): (r: Tileset)
      reads this
      ensures (extents.0 > THRESHOLD || extents.1 > THRESHOLD) ==> r == smallSet
      ensures (extents.0 <= THRESHOLD && extents.1 <= THRESHOLD) ==> r == bigSet
    {
      if Max(extents.0, extents.1) > THRESHOLD then smallSet else bigSet
    }
  }

  function Max(a: int, b: int): int
  {
    if a < b then b else a
  }
}
