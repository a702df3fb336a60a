/**
 * The text grammar of a level (`FromStr for Level` in src/game.rs): one row
 * per line, one cell per character, positions counted from (0, 0).
 */
module Grammar {
  import opened Wrappers
  import opened Game

  /** The parse error: the offending character and the cell it was read at. */
  datatype InvalidChar = InvalidChar(c: char, pos: Position)

  /** What the character scan collects before the extents are computed. */
  datatype Grid = Grid(player: Position, walls: set<Position>, boxes: set<Position>, squares: set<Position>)

  /** The player's default cell when the text names none. */
  const ORIGIN := Position(0, 0)

  const EMPTY_GRID := Grid(ORIGIN, {}, {}, {})

  /** The eight characters the grammar accepts. */
  predicate IsLevelChar(c: char)
  {
    c in "\n#.$@+* "
  }

  /** Where the character after `c` is read: a newline opens the next row at column 0. */
  function Advance(cursor: Position, c: char): Position
  {
    if c == '\n' then Position(cursor.row + 1, 0) else Position(cursor.row, cursor.column + 1)
  }

  /** The cell at which the character following the text `s` is read. */
  function CursorAfter(s: string): Position
    decreases |s|
  {
    if s == [] then ORIGIN else Advance(CursorAfter(s[..|s| - 1]), s[|s| - 1])
  }

  /** The cell at which the character `s[i]` is read. */
  function PosAt(s: string, i: nat): Position
    requires i <= |s|
  {
    CursorAfter(s[..i])
  }

  /** The effect of one character read at `pos`. */
  function Place(g: Grid, c: char, pos: Position): (r: Result<Grid, InvalidChar>)
    ensures r.Err? <==> !IsLevelChar(c)
    ensures r.Err? ==> r.error == InvalidChar(c, pos)
  {
    match c
    case '\n' => Ok(g)
    case '#' => Ok(g.(walls := g.walls + {pos}))
    case '.' => Ok(g.(squares := g.squares + {pos}))
    case '$' => Ok(g.(boxes := g.boxes + {pos}))
    case '@' => Ok(g.(player := pos))
    case '+' => Ok(g.(player := pos, squares := g.squares + {pos}))
    case '*' => Ok(g.(boxes := g.boxes + {pos}, squares := g.squares + {pos}))
    case ' ' => Ok(g)
    case _ => Err(InvalidChar(c, pos))
  }

  /** The character scan as a fold over the text; the first invalid character stops it. */
  function Scan(s: string): (r: Result<Grid, InvalidChar>)
    ensures r.Err? ==> !IsLevelChar(r.error.c) && r.error.c in s
    decreases |s|
  {
    if s == [] then
      Ok(EMPTY_GRID)
    else
      var init := s[..|s| - 1];
      match Scan(init)
      case Err(e) => Err(e)
      case Ok(g) => Place(g, s[|s| - 1], CursorAfter(init))
  }

  /** Reading one more character: the scan so far, then that character at the cursor. */
  lemma ScanSnoc(s: string, c: char)
    ensures CursorAfter(s + [c]) == Advance(CursorAfter(s), c)
    ensures Scan(s + [c]) == if Scan(s).Err? then Scan(s) else Place(Scan(s).value, c, CursorAfter(s))
  {
    assert (s + [c])[..|s|] == s;
  }

  /** The first loop of `from_str`: reads every character, tracking `row` and `col`. */
  method ScanGrid(s: string) returns (r: Result<Grid, InvalidChar>)
    ensures r == Scan(s)
  {
    var player := ORIGIN;
    var walls: set<Position> := {};
    var boxes: set<Position> := {};
    var squares: set<Position> := {};
    var row, col := 0, 0;
    var i := 0;
    while i < |s|
      invariant 0 <= i <= |s|
      invariant Scan(s[..i]) == Ok(Grid(player, walls, boxes, squares))
      invariant Position(row, col) == CursorAfter(s[..i])
    {
      var c := s[i];
      var pos := Position(row, col);
      assert s[..i + 1][..i] == s[..i];
      match c {
        case '\n' =>
          row := row + 1;
          col := -1;
        case '#' =>
          walls := walls + {pos};
        case '.' =>
          squares := squares + {pos};
        case '$' =>
          boxes := boxes + {pos};
        case '@' =>
          player := pos;
        case '+' =>
          player := pos;
          squares := squares + {pos};
        case '*' =>
          boxes := boxes + {pos};
          squares := squares + {pos};
        case ' ' =>
        case _ =>
          ScanErrorPersists(s, i + 1);
          return Err(InvalidChar(c, pos));
      }
      col := col + 1;
      i := i + 1;
    }
    assert s[..i] == s;
    r := Ok(Grid(player, walls, boxes, squares));
  }

  /** Once the scan of a prefix has failed, the scan of the whole text fails the same way. */
  lemma {:induction false} ScanErrorPersists(s: string, n: nat)
    requires n <= |s| && Scan(s[..n]).Err?
    ensures Scan(s) == Scan(s[..n])
    decreases |s| - n
  {
    if n == |s| {
      assert s[..n] == s;
    } else {
      var init := s[..|s| - 1];
      assert init[..n] == s[..n];
      ScanErrorPersists(init, n);
    }
  }

  /** The scan succeeds exactly when every character is one of the eight of the grammar. */
  lemma {:induction false} ScanSucceedsIff(s: string)
    ensures Scan(s).Ok? <==> forall i :: 0 <= i < |s| ==> IsLevelChar(s[i])
    decreases |s|
  {
    if s != [] {
      var init := s[..|s| - 1];
      ScanSucceedsIff(init);
      assert forall i :: 0 <= i < |init| ==> init[i] == s[i];
    }
  }

  /** The first invalid character aborts the parse, reported with its own cell. */
  lemma ScanStopsAtFirstInvalid(s: string, k: nat)
    requires k < |s| && !IsLevelChar(s[k])
    requires forall j :: 0 <= j < k ==> IsLevelChar(s[j])
    ensures Scan(s) == Err(InvalidChar(s[k], PosAt(s, k)))
  {
    var pre := s[..k + 1];
    assert pre[..k] == s[..k];
    ScanSucceedsIff(s[..k]);
    ScanErrorPersists(s, k + 1);
  }

  /** The cursor's row is the number of newlines read; its column the distance back to the last newline. */
  lemma {:induction false} CursorIsLineAndColumn(s: string)
    ensures CursorAfter(s).row == multiset(s)['\n']
    ensures var c := CursorAfter(s).column;
      && 0 <= c <= |s|
      && (forall j :: |s| - c <= j < |s| ==> s[j] != '\n')
      && (c < |s| ==> s[|s| - c - 1] == '\n')
    decreases |s|
  {
    if s != [] {
      var init := s[..|s| - 1];
      CursorIsLineAndColumn(init);
      assert s == init + [s[|s| - 1]];
    }
  }

  /** Row-major order on cells: the order in which the grammar reads them. */
  predicate Before(a: Position, b: Position)
  {
    a.row < b.row || (a.row == b.row && a.column < b.column)
  }

  /** Every character is read at a cell strictly after the one of any earlier character. */
  lemma {:induction false} CursorIncreases(s: string, i: nat, j: nat)
    requires i < j <= |s|
    ensures Before(PosAt(s, i), PosAt(s, j))
    decreases j
  {
    assert s[..j][..j - 1] == s[..j - 1];
    if i < j - 1 {
      CursorIncreases(s, i, j - 1);
    }
  }

  /** Two characters of the text are never read at the same cell. */
  lemma PositionsDistinct(s: string, i: nat, j: nat)
    requires i < |s| && j < |s| && i != j
    ensures PosAt(s, i) != PosAt(s, j)
  {
    if i < j {
      CursorIncreases(s, i, j);
    } else {
      CursorIncreases(s, j, i);
    }
  }

  /** The character `s[i]` is one of `marks` and is read at `p`. */
  predicate MarkedAt(s: string, i: nat, marks: string, p: Position)
  {
    i < |s| && s[i] in marks && PosAt(s, i) == p
  }

  /**
   * A cell is a wall exactly when a `#` is read there, holds a box exactly when
   * a `$` or `*` is read there, and is a square exactly when a `.`, `+` or `*`
   * is read there.
   */
  lemma {:induction false} ScanCells(s: string, p: Position)
    requires Scan(s).Ok?
    ensures p in Scan(s).value.walls <==> exists i :: MarkedAt(s, i, "#", p)
    ensures p in Scan(s).value.boxes <==> exists i :: MarkedAt(s, i, "$*", p)
    ensures p in Scan(s).value.squares <==> exists i :: MarkedAt(s, i, ".+*", p)
    decreases |s|
  {
    if s != [] {
      var n := |s| - 1;
      var init := s[..n];
      ScanCells(init, p);
      forall i: nat, marks: string | i < n
        ensures MarkedAt(init, i, marks, p) == MarkedAt(s, i, marks, p)
      {
        assert init[..i] == s[..i];
      }
      var c := s[n];
      assert MarkedAt(s, n, "#", p) <==> c == '#' && CursorAfter(init) == p;
      assert MarkedAt(s, n, "$*", p) <==> (c == '$' || c == '*') && CursorAfter(init) == p;
      assert MarkedAt(s, n, ".+*", p) <==> (c == '.' || c == '+' || c == '*') && CursorAfter(init) == p;
    }
  }

  /** Without an `@` or `+` the player stays at the origin. */
  lemma {:induction false} ScanPlayerDefault(s: string)
    requires Scan(s).Ok?
    requires forall i :: 0 <= i < |s| ==> s[i] !in "@+"
    ensures Scan(s).value.player == ORIGIN
    decreases |s|
  {
    if s != [] {
      ScanPlayerDefault(s[..|s| - 1]);
    }
  }

  /** Otherwise the player stands where the last `@` or `+` is read. */
  lemma {:induction false} ScanPlayerLast(s: string, k: nat)
    requires Scan(s).Ok? && k < |s| && s[k] in "@+"
    requires forall j :: k < j < |s| ==> s[j] !in "@+"
    ensures Scan(s).value.player == PosAt(s, k)
    decreases |s|
  {
    var n := |s| - 1;
    var init := s[..n];
    if k < n {
      ScanPlayerLast(init, k);
      assert init[..k] == s[..k];
    }
  }

  /**
   * Walls never share a cell with a box or a square, and a player read from the
   * text stands on neither a wall nor a box.
   */
  lemma ScanCellsDisjoint(s: string)
    requires Scan(s).Ok?
    ensures Scan(s).value.walls !! Scan(s).value.boxes
    ensures Scan(s).value.walls !! Scan(s).value.squares
    ensures forall k :: 0 <= k < |s| && s[k] in "@+" && (forall j :: k < j < |s| ==> s[j] !in "@+") ==>
      Scan(s).value.player !in Scan(s).value.walls + Scan(s).value.boxes
  {
    var g := Scan(s).value;
    forall p | p in g.walls
      ensures p !in g.boxes && p !in g.squares
    {
      ScanCells(s, p);
      var i :| MarkedAt(s, i, "#", p);
      if p in g.boxes {
        var j :| MarkedAt(s, j, "$*", p);
        PositionsDistinct(s, i, j);
      }
      if p in g.squares {
        var j :| MarkedAt(s, j, ".+*", p);
        PositionsDistinct(s, i, j);
      }
    }
    forall k | 0 <= k < |s| && s[k] in "@+" && (forall j :: k < j < |s| ==> s[j] !in "@+")
      ensures g.player !in g.walls + g.boxes
    {
      ScanPlayerLast(s, k);
      var p := g.player;
      ScanCells(s, p);
      if p in g.walls {
        var i :| MarkedAt(s, i, "#", p);
        PositionsDistinct(s, i, k);
      }
      if p in g.boxes {
        var i :| MarkedAt(s, i, "$*", p);
        PositionsDistinct(s, i, k);
      }
    }
  }

  /** Every cell the scan names, the player's included, lies in the non-negative quadrant. */
  lemma {:induction false} ScanNonNegative(s: string)
    requires Scan(s).Ok?
    ensures var g := Scan(s).value;
      && g.player.row >= 0 && g.player.column >= 0
      && forall p :: p in g.walls + g.boxes + g.squares ==> p.row >= 0 && p.column >= 0
    decreases |s|
  {
    if s != [] {
      var init := s[..|s| - 1];
      ScanNonNegative(init);
      CursorIsLineAndColumn(init);
    }
  }

  /** A text without `@` or `+` may leave the default player inside a wall. */
  lemma DefaultPlayerMayStandOnWall()
    ensures Scan("#").Ok?
    ensures Scan("#").value.player in Scan("#").value.walls
  {
    assert "#"[..0] == [];
  }

  /**
   * `e` is one past the largest column and one past the largest row among the
   * player and `cells`.
   */
  ghost predicate IsExtents(player: Position, cells: set<Position>, e: (int, int))
  {
    && player.column < e.0 && player.row < e.1
    && (forall p :: p in cells ==> p.column < e.0 && p.row < e.1)
    && (player.column == e.0 - 1 || exists p :: p in cells && p.column == e.0 - 1)
    && (player.row == e.1 - 1 || exists p :: p in cells && p.row == e.1 - 1)
  }

  /** The extents of a level, as a specification. */
  ghost function Extents(player: Position, cells: set<Position>): (e: (int, int))
    ensures IsExtents(player, cells, e)
    decreases cells
  {
    if cells == {} then
      (player.column + 1, player.row + 1)
    else
      var p :| p in cells;
      var e := Extents(player, cells - {p});
      (if p.column + 1 > e.0 then p.column + 1 else e.0,
       if p.row + 1 > e.1 then p.row + 1 else e.1)
  }

  /** The extents are determined by the cells. */
  lemma ExtentsUnique(player: Position, cells: set<Position>, e1: (int, int), e2: (int, int))
    requires IsExtents(player, cells, e1) && IsExtents(player, cells, e2)
    ensures e1 == e2
  {
  }

  /** The second loop of `from_str`: the largest column and row, each plus one. */
  method ComputeExtents(player: Position, cells: set<Position>) returns (e: (int, int))
    ensures IsExtents(player, cells, e)
  {
    var w, h := player.column, player.row;
    var rest := cells;
    while rest != {}
      invariant rest <= cells
      invariant player.column <= w && player.row <= h
      invariant forall p :: p in cells - rest ==> p.column <= w && p.row <= h
      invariant w == player.column || exists p :: p in cells - rest && p.column == w
      invariant h == player.row || exists p :: p in cells - rest && p.row == h
      decreases rest
    {
      var p :| p in rest;
      if p.column > w {
        w := p.column;
      }
      if p.row > h {
        h := p.row;
      }
      rest := rest - {p};
    }
    e := (w + 1, h + 1);
  }

  /** Every named feature of a scanned grid, the player aside. */
  function Cells(g: Grid): set<Position>
  {
    g.walls + g.squares + g.boxes
  }

  /** The level `from_str` builds: untitled, no steps, extents from its cells. */
  ghost function ParseLevel(s: string): Result<LevelData, InvalidChar>
  {
    match Scan(s)
    case Err(e) => Err(e)
    case Ok(g) => Ok(LevelData("", g.player, 0, g.walls, g.boxes, g.squares, Extents(g.player, Cells(g))))
  }

  /**
   * A parsed level starts untitled with no steps, its extents are positive and
   * enclose the player and every wall, box and square, and walls share no cell
   * with boxes or squares.
   */
  lemma ParsedLevelFacts(s: string)
    requires ParseLevel(s).Ok?
    ensures var v := ParseLevel(s).value;
      && v.title == "" && v.steps == 0
      && v.extents.0 >= v.player.column + 1 && v.extents.1 >= v.player.row + 1
      && v.extents.0 >= 1 && v.extents.1 >= 1
      && (forall p :: p in v.walls + v.boxes + v.squares ==> p.column < v.extents.0 && p.row < v.extents.1)
      && v.walls !! v.boxes && v.walls !! v.squares
  {
    ScanCellsDisjoint(s);
    ScanNonNegative(s);
  }

  /** `Level::from_str`: the character scan, then the extents. */
  method FromStr(s: string) returns (r: Result<Level, InvalidChar>)
    ensures r.Err? <==> ParseLevel(s).Err?
    ensures r.Err? ==> r.error == ParseLevel(s).error
    ensures r.Ok? ==> fresh(r.value) && r.value.Data() == ParseLevel(s).value
  {
    var scanned := ScanGrid(s);
    match scanned {
      case Err(e) =>
        r := Err(e);
      case Ok(g) =>
        var extents := ComputeExtents(g.player, Cells(g));
        ExtentsUnique(g.player, Cells(g), extents, Extents(g.player, Cells(g)));
        var level := new Level(LevelData("", g.player, 0, g.walls, g.boxes, g.squares, extents));
        r := Ok(level);
    }
  }
}
