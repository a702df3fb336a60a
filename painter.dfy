/** The shadow computation of src/painter.rs (`get_shadow_flags`); the drawing itself is not modelled. */
module Painter {
  import opened Game
  import opened Shadows

  /** The row and column offset of the neighbour a flag looks at. */
  function Offset(f: Flag): (int, int)
  {
    match f
    case North => (-1, 0)
    case South => (1, 0)
    case East => (0, 1)
    case West => (0, -1)
    case NorthEast => (-1, 1)
    case NorthWest => (-1, -1)
    case SouthEast => (1, 1)
    case SouthWest => (1, -1)
  }

  predicate IsCorner(f: Flag)
  {
    f == NorthEast || f == NorthWest || f == SouthEast || f == SouthWest
  }

  /** The two edges that meet at a corner. */
  function Sides(f: Flag): (Flag, Flag)
    requires IsCorner(f)
  {
    match f
    case NorthEast => (North, East)
    case NorthWest => (North, West)
    case SouthEast => (South, East)
    case SouthWest => (South, West)
  }

  /** The neighbour of `pos` that flag `f` looks at. */
  function Toward(pos: Position, f: Flag): Position
  {
    Position(pos.row + Offset(f).0, pos.column + Offset(f).1)
  }

  /**
   * An edge shadow falls when its neighbour is a wall; a corner shadow when its
   * diagonal neighbour is a wall and neither of the corner's edges casts one.
   */
  predicate Casts(walls: set<Position>, pos: Position, f: Flag)
  {
    if IsCorner(f) then
      Toward(pos, f) in walls && Toward(pos, Sides(f).0) !in walls && Toward(pos, Sides(f).1) !in walls
    else
      Toward(pos, f) in walls
  }

  /** The shadows that fall on the cell at `pos`. */
  function ShadowsAt(walls: set<Position>, pos: Position): (r: set<Flag>)
    ensures r <= ALL_FLAGS
    ensures forall f :: f in r && IsCorner(f) ==> Sides(f).0 !in r && Sides(f).1 !in r
  {
    set f | f in ALL_FLAGS && Casts(walls, pos, f)
  }

  /** Membership in `ShadowsAt`, flag by flag, in terms of the neighbours `get_shadow_flags` reads. */
  lemma ShadowsAtMembers(walls: set<Position>, pos: Position)
    ensures var north, south := pos.Neighbor(Up), pos.Neighbor(Down);
      var west, east := pos.Neighbor(Left), pos.Neighbor(Right);
      var shadows := ShadowsAt(walls, pos);
      && (North in shadows <==> north in walls)
      && (South in shadows <==> south in walls)
      && (West in shadows <==> west in walls)
      && (East in shadows <==> east in walls)
      && (NorthEast in shadows <==> north.Neighbor(Right) in walls && north !in walls && east !in walls)
      && (NorthWest in shadows <==> north.Neighbor(Left) in walls && north !in walls && west !in walls)
      && (SouthEast in shadows <==> south.Neighbor(Right) in walls && south !in walls && east !in walls)
      && (SouthWest in shadows <==> south.Neighbor(Left) in walls && south !in walls && west !in walls)
  {
  }

  /** `get_shadow_flags`: four edge tests, then four corner tests that read the edge bits already set. */
  method GetShadowFlags(level: Level, pos: Position) returns (flags: ShadowFlags)
    ensures flags == Encode(ShadowsAt(level.walls, pos))
    ensures Decode(flags) == ShadowsAt(level.walls, pos)
  {
    var north := pos.Neighbor(Up);
    var south := pos.Neighbor(Down);
    var west := pos.Neighbor(Left);
    var east := pos.Neighbor(Right);
    ghost var n, s, w, e := north in level.walls, south in level.walls, west in level.walls, east in level.walls;

    flags := EMPTY;
    if level.Data().IsWall(north) {
      flags := flags | N_EDGE;
    }
    if level.Data().IsWall(south) {
      flags := flags | S_EDGE;
    }
    if level.Data().IsWall(west) {
      flags := flags | W_EDGE;
    }
    if level.Data().IsWall(east) {
      flags := flags | E_EDGE;
    }
    assert flags == (if n then N_EDGE else EMPTY) | (if s then S_EDGE else EMPTY)
      | (if w then W_EDGE else EMPTY) | (if e then E_EDGE else EMPTY);
    ghost var edges := flags;
    ghost var ne := north.Neighbor(Right) in level.walls && !n && !e;
    ghost var nw := north.Neighbor(Left) in level.walls && !n && !w;
    ghost var se := south.Neighbor(Right) in level.walls && !s && !e;
    ghost var sw := south.Neighbor(Left) in level.walls && !s && !w;
    if level.Data().IsWall(north.Neighbor(Right)) && flags & (N_EDGE | E_EDGE) == 0 {
      flags := flags | NE_CORNER;
    }
    assert flags == edges | (if ne then NE_CORNER else EMPTY);
    if level.Data().IsWall(north.Neighbor(Left)) && flags & (N_EDGE | W_EDGE) == 0 {
      flags := flags | NW_CORNER;
    }
    assert flags == edges | (if ne then NE_CORNER else EMPTY) | (if nw then NW_CORNER else EMPTY);
    if level.Data().IsWall(south.Neighbor(Right)) && flags & (S_EDGE | E_EDGE) == 0 {
      flags := flags | SE_CORNER;
    }
    assert flags == edges | (if ne then NE_CORNER else EMPTY) | (if nw then NW_CORNER else EMPTY)
      | (if se then SE_CORNER else EMPTY);
    if level.Data().IsWall(south.Neighbor(Left)) && flags & (S_EDGE | W_EDGE) == 0 {
      flags := flags | SW_CORNER;
    }
    assert flags == edges | (if ne then NE_CORNER else EMPTY) | (if nw then NW_CORNER else EMPTY)
      | (if se then SE_CORNER else EMPTY) | (if sw then SW_CORNER else EMPTY);
    ShadowsAtMembers(level.walls, pos);
    DecodeEncode(ShadowsAt(level.walls, pos));
  }

  /** A corner shadow never appears together with either of its two edges. */
  lemma CornerExcludesItsEdges(walls: set<Position>, pos: Position, f: Flag)
    requires IsCorner(f) && f in ShadowsAt(walls, pos)
    ensures Sides(f).0 !in ShadowsAt(walls, pos) && Sides(f).1 !in ShadowsAt(walls, pos)
  {
  }

  /** The eight cells around `pos`. */
  function Ring(pos: Position): set<Position>
  {
    set f | f in ALL_FLAGS :: Toward(pos, f)
  }

  /** Only the walls on the eight surrounding cells matter; boxes, player and squares play no part. */
  lemma ShadowsAreLocal(walls1: set<Position>, walls2: set<Position>, pos: Position)
    requires forall q :: q in Ring(pos) ==> (q in walls1 <==> q in walls2)
    ensures ShadowsAt(walls1, pos) == ShadowsAt(walls2, pos)
  {
    forall f | f in ALL_FLAGS
      ensures Casts(walls1, pos, f) == Casts(walls2, pos, f)
    {
      assert Toward(pos, f) in Ring(pos);
      if IsCorner(f) {
        assert Toward(pos, Sides(f).0) in Ring(pos);
        assert Toward(pos, Sides(f).1) in Ring(pos);
      }
    }
  }

  /** A cell with no wall around it gets no shadow at all. */
  lemma NoWallsNoShadow(walls: set<Position>, pos: Position)
    requires walls !! Ring(pos)
    ensures ShadowsAt(walls, pos) == {}
    ensures Encode(ShadowsAt(walls, pos)) == EMPTY
  {
    forall f | f in ALL_FLAGS
      ensures !Casts(walls, pos, f)
    {
      assert Toward(pos, f) in Ring(pos);
    }
  }
}
