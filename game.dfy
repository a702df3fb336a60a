/**
 * The level engine of src/game.rs: grid positions, directions and the
 * mutable puzzle state with its push rule and completion test.
 */
module Game {

  /** One of the four moves the player can make. */
  datatype Direction = Up | Down | Left | Right

  function Abs(x: int): nat
  {
    if x < 0 then -x else x
  }

  /** A cell of the unbounded grid; rows grow downwards, columns to the right. */
  datatype Position = Position(row: int, column: int)
  {
    /** The cell next to this one in direction `d` (no bounds are checked). */
    function Neighbor(d: Direction): (r: Position)
      ensures Abs(r.row - row) + Abs(r.column - column) == 1
      ensures r.row < row <==> d == Up
      ensures r.row > row <==> d == Down
      ensures r.column < column <==> d == Left
      ensures r.column > column <==> d == Right
    {
      match d
      case Up => Position(row - 1, column)
      case Down => Position(row + 1, column)
      case Left => Position(row, column - 1)
      case Right => Position(row, column + 1)
    }
  }

  /** Distinct directions lead to distinct neighbours, and never back to the cell itself. */
  lemma NeighborInjective(p: Position, d1: Direction, d2: Direction)
    ensures p.Neighbor(d1) != p
    ensures p.Neighbor(d1) == p.Neighbor(d2) <==> d1 == d2
  {
  }

  /**
   * The value held by a level: everything `Level` stores. Walls and squares
   * (targets) never change during play; the player, the boxes and the step
   * counter do.
   */
  datatype LevelData = LevelData(
    title: string,
    player: Position,
    steps: int,
    walls: set<Position>,
    boxes: set<Position>,
    squares: set<Position>,
    extents: (int, int))
  {
    predicate IsFree(p: Position)
    {
      p !in walls && p !in boxes
    }

    predicate IsBox(p: Position)
    {
      p in boxes
    }

    predicate IsPlayer(p: Position)
    {
      p == player
    }

    predicate IsSquare(p: Position)
    {
      p in squares
    }

    predicate IsWall(p: Position)
    {
      p in walls
    }

    /** Solved: no target square is left without a box. */
    function IsCompleted(): (r: bool)
      ensures r <==> squares <= boxes
      ensures squares == {} ==> r
    {
      EmptyDifference(squares, boxes);
      |squares - boxes| == 0
    }

    /** The play invariants: no box inside a wall, the player on neither. */
    predicate Consistent()
    {
      walls !! boxes && player !in walls && player !in boxes
    }

    /** The state after `move_player(p)`: a real move also counts one step. */
    function WithPlayerAt(p: Position): (r: LevelData)
      ensures r.player == p
      ensures r.steps == steps <==> p == player
      ensures r.steps <= steps + 1
      ensures r.(player := player, steps := steps) == this
    {
      if p != player then this.(player := p, steps := steps + 1) else this
    }

    /** The state after `move_box(from, to)`: remove, and insert only if a box was removed. */
    function WithBoxMoved(from: Position, to: Position): (r: LevelData)
      ensures from in boxes ==> to in r.boxes && (from != to ==> from !in r.boxes)
      ensures from !in boxes ==> r == this
      ensures r.boxes - {from, to} == boxes - {from, to}
      ensures r.(boxes := boxes) == this
    {
      if from in boxes then this.(boxes := boxes - {from} + {to}) else this
    }

    /** The state after `step(d)`: walk into a free cell, or push one box into a free cell. */
    function AfterStep(d: Direction): (r: LevelData)
      ensures r == this || r.player == player.Neighbor(d)
      ensures var next := player.Neighbor(d);
        r.boxes - {next, next.Neighbor(d)} == boxes - {next, next.Neighbor(d)}
    {
      var next := player.Neighbor(d);
      if IsFree(next) then
        WithPlayerAt(next)
      else if IsBox(next) then
        var beyond := next.Neighbor(d);
        if IsFree(beyond) then WithBoxMoved(next, beyond).WithPlayerAt(next) else this
      else
        this
    }
  }

  /** A set difference is empty exactly when the first set is included in the second. */
  lemma EmptyDifference<T>(a: set<T>, b: set<T>)
    ensures |a - b| == 0 <==> a <= b
  {
    if !(a <= b) {
      var x :| x in a && x !in b;
      assert x in a - b;
    }
  }

  /** Walking into a free cell (an empty target included) moves the player and counts one step. */
  lemma StepIntoFreeCell(v: LevelData, d: Direction)
    requires v.IsFree(v.player.Neighbor(d))
    ensures v.AfterStep(d).player == v.player.Neighbor(d)
    ensures v.AfterStep(d).steps == v.steps + 1
    ensures v.AfterStep(d).boxes == v.boxes
  {
  }

  /** Pushing a box into a free cell moves that box one cell on, and the player into its place. */
  lemma StepPushesBox(v: LevelData, d: Direction)
    requires v.IsBox(v.player.Neighbor(d))
    requires v.IsFree(v.player.Neighbor(d).Neighbor(d))
    ensures var next := v.player.Neighbor(d);
      && v.AfterStep(d).player == next
      && v.AfterStep(d).boxes == v.boxes - {next} + {next.Neighbor(d)}
      && v.AfterStep(d).steps == v.steps + 1
      && |v.AfterStep(d).boxes| == |v.boxes|
  {
    var next := v.player.Neighbor(d);
    var beyond := next.Neighbor(d);
    assert v.boxes - {next} + {beyond} == (v.boxes - {next}) + {beyond};
    assert |v.boxes - {next}| == |v.boxes| - 1;
  }

  /**
   * A wall ahead, or a box with a wall or another box behind it, rejects the
   * move outright. (A cell that were both wall and box would be pushed like a
   * box: the rule tests for a box before it gives up.)
   */
  lemma StepBlocked(v: LevelData, d: Direction)
    requires var next := v.player.Neighbor(d);
      (v.IsWall(next) && !v.IsBox(next)) || (v.IsBox(next) && !v.IsFree(next.Neighbor(d)))
    ensures v.AfterStep(d) == v
  {
  }

  /**
   * A step keeps the layout (walls, squares, title, extents), keeps the number
   * of boxes, counts a step exactly when the player moved, and preserves the
   * play invariants.
   */
  lemma StepKeepsLayout(v: LevelData, d: Direction)
    ensures var w := v.AfterStep(d);
      && w.walls == v.walls && w.squares == v.squares
      && w.title == v.title && w.extents == v.extents
      && |w.boxes| == |v.boxes|
      && w.steps == v.steps + (if w.player != v.player then 1 else 0)
      && (v.Consistent() ==> w.Consistent())
  {
    var next := v.player.Neighbor(d);
    if !v.IsFree(next) && v.IsBox(next) && v.IsFree(next.Neighbor(d)) {
      StepPushesBox(v, d);
    }
  }

  /** The state after playing a whole sequence of moves. */
  function Play(v: LevelData, moves: seq<Direction>): LevelData
    decreases |moves|
  {
    if moves == [] then v else Play(v.AfterStep(moves[0]), moves[1..])
  }

  /**
   * Over any sequence of moves: walls, squares, title and extents are fixed,
   * the box count is fixed, the step counter grows by at most one per move,
   * and the play invariants hold throughout if they held at the start.
   */
  lemma {:induction false} PlayKeepsInvariants(v: LevelData, moves: seq<Direction>)
    ensures var w := Play(v, moves);
      && w.walls == v.walls && w.squares == v.squares
      && w.title == v.title && w.extents == v.extents
      && |w.boxes| == |v.boxes|
      && v.steps <= w.steps <= v.steps + |moves|
      && (v.Consistent() ==> w.Consistent())
    decreases |moves|
  {
    if moves != [] {
      StepKeepsLayout(v, moves[0]);
      PlayKeepsInvariants(v.AfterStep(moves[0]), moves[1..]);
    }
  }

  /** The mutable level of src/game.rs. */
  class Level {
    var title: string
    var player: Position
    var steps: int
    var walls: set<Position>
    var boxes: set<Position>
    var squares: set<Position>
    var extents: (int, int)

    /** The value this object currently holds. */
    function Data(): LevelData
      reads this
    {
      LevelData(title, player, steps, walls, boxes, squares, extents)
    }

    constructor (d: LevelData)
      ensures Data() == d
    {
      title, player, steps := d.title, d.player, d.steps;
      walls, boxes, squares := d.walls, d.boxes, d.squares;
      extents := d.extents;
    }

    /** A deep copy, as `Clone` on the Rust value. */
    method Clone() returns (c: Level)
      ensures fresh(c) && c.Data() == Data()
    {
      c := new Level(Data());
    }

    /** Moves the player in direction `d` if possible, pushing at most one box. */
    method Step(d: Direction)
      modifies this
      ensures Data() == old(Data()).AfterStep(d)
    {
      var nextToPlayer := player.Neighbor(d);
      if Data().IsFree(nextToPlayer) {
        MovePlayer(nextToPlayer);
      } else if Data().IsBox(nextToPlayer) {
        var nextToBox := nextToPlayer.Neighbor(d);
        if Data().IsFree(nextToBox) {
          MoveBox(nextToPlayer, nextToBox);
          MovePlayer(nextToPlayer);
        }
      }
    }

    method SetTitle(t: string)
      modifies this
      ensures Data() == old(Data()).(title := t)
    {
      title := t;
    }

    method MovePlayer(pos: Position)
      modifies this
      ensures Data() == old(Data()).WithPlayerAt(pos)
    {
      if pos != player {
        player := pos;
        steps := steps + 1;
      }
    }

    method MoveBox(from: Position, to: Position)
      modifies this
      ensures Data() == old(Data()).WithBoxMoved(from, to)
    {
      if from in boxes {
        boxes := boxes - {from};
        boxes := boxes + {to};
      }
    }
  }
}
