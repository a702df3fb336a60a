# sokoban-rs level engine in Dafny

This project models the core of sokoban-rs, a Sokoban game written in Rust,
and proves properties of that model. The core has five parts:

- **The level engine** (`src/game.rs`) covers the following:
  - grid positions and the four directions;
  - the mutable `Level`, which holds the player, the step counter, the sets of walls, boxes and target squares, the extents and the title;
  - the push rule of `step` and the completion test;
  - the text grammar of a level (`FromStr for Level`), which reports the first invalid character together with its cell.
- **The collection loader** (`load_slc_file` in `src/main.rs`) folds the events of an SLC document into a list of levels. The main loop of the same file contributes the play session around it: a live level and its reference copy, reset, skip and advance, and the arrow keys.
- **The shadow flags** (`src/shadow.rs`) and their computation for a floor cell (`get_shadow_flags` in `src/painter.rs`).
- **The tileset geometry** (`src/tileset.rs`) covers:
  - the place of each tile in the tile sheet;
  - the pixel coordinates of a cell and the pixel size of a drawn level;
  - the selector that switches to the small tileset for large levels.

Files:

- `game.dfy` (module `Game`):
  - `Position` and `Direction`;
  - the value `LevelData` with the push rule `AfterStep`;
  - the class `Level`, whose methods update its fields in place and are proved against `LevelData`.
- `grammar.dfy` (module `Grammar`): the level parser.
  - `Scan` is the character scan written as a fold over the text.
  - `ScanGrid` is the scanning loop, proved equal to `Scan`.
  - `ComputeExtents` is the extents loop.
  - `FromStr` puts the two together.
- `collection.dfy` (module `Collection`): the loader.
  - `Feed` gives the effect of one event and `Run` folds it over a sequence of events.
  - The loop `LoadSlcFile` is proved against `Load`.
- `host.dfy` (module `Host`): the play session as a class.
- `shadow.dfy` (module `Shadows`) and `painter.dfy` (module `Painter`): the shadow flags as a `bv32` and their computation.
- `tiles.dfy` (module `Tiles`): tilesets and the tileset selector.
- `scenarios.dfy` (module `Scenarios`): worked examples.
  - A three-row sample level is scanned, parsed and solved by one push.
  - A collection of two titled levels loads in document order.
- `wrappers.dfy` (module `Wrappers`): `Option` and `Result`.

Where the code and its description differ, the model follows the code:

- The loader's `reading_level` flag is never cleared. Once the first `L` element has started, all character data is appended to the level text, wherever it stands (`src/main.rs:179`, `src/main.rs:187-188`, `src/main.rs:203-207`).
- Malformed XML reported by the reader falls into the catch-all arm and is ignored; the load still succeeds (`src/main.rs:209`). In the model such events are `Ignored`.

## Model

| member | source | states |
|---|---|---|
| Game.Position.Neighbor | src/game.rs:44-51 | the neighbour differs by exactly one in exactly one coordinate. Row decreases iff Up, increases iff Down; column decreases iff Left, increases iff Right |
| Game.NeighborInjective | src/game.rs:44-51 | a neighbour is never the cell itself, and two directions give the same neighbour only if they are equal |
| Game.LevelData.IsCompleted | src/game.rs:104-106 | completed iff every square holds a box; a level without squares is completed |
| Game.LevelData.WithPlayerAt | src/game.rs:149-154 | the player ends at the given cell, and a step is counted iff that cell differs from the old one. Nothing else changes |
| Game.LevelData.WithBoxMoved | src/game.rs:157-161 | a box at `from` ends at `to` and `from` is vacated; without a box at `from` nothing changes. Other boxes and all other fields are untouched |
| Game.LevelData.AfterStep | src/game.rs:85-96 | after a step, either nothing changed or the player is on the neighbouring cell; boxes change only on the two cells ahead |
| Game.StepIntoFreeCell | src/game.rs:85-88 | a free next cell (an empty square included) gets the player; steps rise by exactly one; boxes are unchanged |
| Game.StepPushesBox | src/game.rs:89-94 | a box with a free cell beyond moves one cell on and the player takes its place. Steps rise by one and the box count is unchanged |
| Game.StepBlocked | src/game.rs:85-96 | a wall ahead, or a box with a wall or box beyond it, leaves the whole level unchanged, steps included |
| Game.StepKeepsLayout | src/game.rs:85-96 | a step keeps walls, squares, title, extents and box count, and counts a step iff the player moved. It preserves "walls and boxes disjoint, player on neither" |
| Game.PlayKeepsInvariants | src/game.rs:85-96 | over any move sequence: the layout is fixed, the box count is fixed, steps grow by at most one per move, and the invariants are kept |
| Game.Level.constructor | src/game.rs:66-81 | a level object holds exactly the given value |
| Game.Level.Clone | src/game.rs:65 | the copy is a new object holding the same value |
| Game.Level.Step | src/game.rs:85-96 | the in-place step leaves the object holding `AfterStep` of its old value |
| Game.Level.SetTitle | src/game.rs:144-146 | only the title changes |
| Game.Level.MovePlayer | src/game.rs:149-154 | moving to a different cell sets the player and adds one step; moving to the same cell changes nothing |
| Game.Level.MoveBox | src/game.rs:157-161 | a box present at `from` is moved to `to`; otherwise nothing changes |
| Grammar.Place | src/game.rs:197-227 | one character fails iff it is not one of the eight of the grammar, and the error carries that character and its cell |
| Grammar.Scan | src/game.rs:195-229 | the scan fails only with a character of the text that is not in the grammar |
| Grammar.ScanGrid | src/game.rs:195-229 | the row/column loop over the characters computes exactly the scan fold |
| Grammar.ScanErrorPersists | src/game.rs:224-226 | once a prefix fails, the whole text fails with the same error |
| Grammar.ScanSucceedsIff | src/game.rs:196-227 | the scan succeeds iff every character belongs to the grammar |
| Grammar.ScanStopsAtFirstInvalid | src/game.rs:224-226 | the error names the first invalid character and the cell it was read at |
| Grammar.CursorIsLineAndColumn | src/game.rs:195-202 | the row is the number of newlines read; the column is the distance back to the last newline |
| Grammar.CursorIncreases | src/game.rs:195-228 | later characters are read at cells strictly later in row-major order |
| Grammar.PositionsDistinct | src/game.rs:195-228 | no two characters are read at the same cell |
| Grammar.ScanCells | src/game.rs:203-222 | a cell is a wall iff a `#` is read there, a box iff a `$` or `*`, and a square iff a `.`, `+` or `*` |
| Grammar.ScanPlayerDefault | src/game.rs:187 | without `@` or `+` the player stays at (0, 0) |
| Grammar.ScanPlayerLast | src/game.rs:212-217 | otherwise the player is at the cell of the last `@` or `+` |
| Grammar.ScanCellsDisjoint | src/game.rs:195-229 | walls share no cell with boxes or squares; a player read from the text stands on neither a wall nor a box |
| Grammar.ScanNonNegative | src/game.rs:195-229 | every cell the scan names, the player included, has a non-negative row and column |
| Grammar.DefaultPlayerMayStandOnWall | src/game.rs:185-204 | the text `#` parses with the default player inside the wall |
| Grammar.Extents | src/game.rs:231-246 | the extents are one past the largest column and row among the player and all cells, and are attained |
| Grammar.ExtentsUnique | src/game.rs:231-246 | those conditions determine the extents |
| Grammar.ComputeExtents | src/game.rs:231-246 | the max loop over the cells produces those extents |
| Grammar.ParsedLevelFacts | src/game.rs:184-248 | a parsed level is untitled, has no steps and positive extents enclosing every cell and the player, and keeps walls apart from boxes and squares |
| Grammar.FromStr | src/game.rs:181-249 | the parser fails iff the grammar rejects the text, with its error; otherwise it returns a new level holding the parsed value |
| Collection.FindId | src/main.rs:189-191 | the value of the first attribute named `Id`, and none iff no attribute has that name |
| Collection.Feed | src/main.rs:180-208 | only a `Level` end tag can fail, and it fails iff the collected text does not parse. Otherwise it appends the parsed level with the current title and clears the text. No other event changes the levels, and the reading flag is never cleared |
| Collection.RunErrorPersists | src/main.rs:195-197 | a parse error ends the load; later events do not matter |
| Collection.RunPrefix | src/main.rs:178-211 | levels are produced in document order: every prefix of a successful load yields a prefix of its levels |
| Collection.RunCountsLevels | src/main.rs:195-201 | a successful load yields one level per `Level` end tag |
| Collection.RunReadingLevel | src/main.rs:187-188 | the reading flag is set iff some `L` start tag has been seen |
| Collection.RunTitle | src/main.rs:189-192 | the current title is the `Id` of the last `Level` start tag that has one, and empty before any |
| Collection.BadLevelAbortsLoad | src/main.rs:195-197 | a level text that does not parse makes the whole load fail with that parse error |
| Collection.Run | src/main.rs:180-211 | the fold of the events fails only if some `Level` end tag is among them, and yields at most one level per event |
| Collection.Load | src/main.rs:171-214 | an unopenable file fails with an I/O error; otherwise a failure is a parse error, and a success yields exactly one level per `Level` end tag |
| Collection.RunTextIdle | src/main.rs:203-207 | before reading has started, no text is collected |
| Collection.RunTextSince | src/main.rs:203-207 | once reading has started, the text grows by every chunk of character data plus a newline, inside an `L` element or not, until the next `Level` end tag |
| Collection.LevelAtEndTag | src/main.rs:195-201 | the `Level` end tag at index k parses the collected text, appends that level with the current title, and clears the text. In the finished load that level sits at the index equal to the number of levels before it |
| Collection.LoadSlcFile | src/main.rs:171-214 | an unopenable file fails with an I/O error. Otherwise the loop returns new, distinct level objects holding exactly the folded levels, or the fold's parse error |
| Host.DirectionOf | src/main.rs:122-145 | each arrow key maps to its own direction: Left, Right, Up, Down |
| Host.Session.constructor | src/main.rs:92-100 | the first level is the reference and the live level is a new copy of it; the rest are pending; not skipping; running |
| Host.Session.NextLevel | src/main.rs:101-113 | a completed or skipped level is replaced by the next pending one, which becomes the reference (as a copy), and skip is cleared. With nothing pending the loop ends; otherwise nothing changes |
| Host.Session.HandleEvent | src/main.rs:116-159 | Quit and Escape stop the loop and N sets skip. R makes the live level a new copy of the reference, an arrow steps the live level in its direction, and anything else changes nothing |
| Shadows.BitsAreDisjointSingles | src/shadow.rs:19-35 | every flag constant is a single bit and different flags share no bit |
| Shadows.MasksFillOneByte | src/shadow.rs:21-35 | the edges fill 0x0F and the corners fill 0xF0 |
| Shadows.Encode | src/shadow.rs:19-35 | any union of flags lies within 0xFF, and the empty union is the empty flag value |
| Shadows.DecodeEncode | src/shadow.rs:19-35 | a union of flags identifies its members uniquely |
| Painter.ShadowsAtMembers | src/painter.rs:247-284 | an edge shadow falls iff its neighbour is a wall; a corner shadow iff its diagonal is a wall and neither adjacent edge is |
| Painter.ShadowsAt | src/painter.rs:246-286 | only the eight named flags fall, and a corner never falls with its two edges |
| Painter.GetShadowFlags | src/painter.rs:246-286 | the eight successive updates give exactly the union of the shadows that fall on the cell |
| Painter.CornerExcludesItsEdges | src/painter.rs:265-284 | a corner flag never comes with either of its two edges |
| Painter.ShadowsAreLocal | src/painter.rs:246-286 | the flags depend only on the walls among the eight surrounding cells |
| Painter.NoWallsNoShadow | src/painter.rs:252-285 | a cell with no wall around it gets the empty flag value |
| Tiles.Tileset.Location | src/tileset.rs:90-106 | every non-shadow tile has a place in the sheet; a shadow has one iff its flags are a single named bit |
| Tiles.LocationsDistinct | src/tileset.rs:91-104 | no two tiles share a place in the sheet |
| Tiles.CoordinatesOfNeighbors | src/tileset.rs:111-115 | a cell to the right is drawn one tile width further; a row down one effective height further |
| Tiles.Tileset.GetCoordinates | src/tileset.rs:111-115 | a cell in the non-negative quadrant is drawn at non-negative coordinates |
| Tiles.Tileset.GetRenderingSize | src/tileset.rs:118-126 | no columns give zero width, and no rows give zero height. With rows, the height is at least one tile |
| Tiles.RenderingSizeTight | src/tileset.rs:111-126 | the tile of the last cell of a non-empty level ends exactly at the rendering size |
| Tiles.RenderingSizeCoversCells | src/tileset.rs:111-126 | the tile of every cell inside the extents is drawn inside the rendering size |
| Tiles.Tileset.GetTileRect | src/tileset.rs:129-134 | a rectangle of one tile's width and height is always returned |
| Tiles.TileRectsDisjoint | src/tileset.rs:129-134 | the sheet rectangles of two different places never overlap |
| Tiles.TilesetSelector.constructor | src/tileset.rs:151-157 | a new selector has extents (0, 0) and selects the big set |
| Tiles.TilesetSelector.Reset | src/tileset.rs:160-162 | only the extents change |
| Tiles.TilesetSelector.Select | src/tileset.rs:164-170 | the small set iff either dimension exceeds 40, the big set otherwise |
| Scenarios.ScanSample | src/game.rs:195-229 | the sample text scans to the expected player, walls, box and square |
| Scenarios.ParseSample | src/game.rs:181-249 | the sample parses to the expected level with extents (5, 3), not yet completed |
| Scenarios.PushSample | src/game.rs:85-106 | pushing right in the sample moves the box onto the square; the level is completed after one step |
| Scenarios.LoadTwoLevels | src/main.rs:171-214 | a collection of two `Level` elements, each with one `L` element, loads to two levels in document order, each titled by its `Id` |

## Left out

- Drawing is not modelled: the canvas, textures, fonts, the status bar and the window (`draw` and its helpers in `src/painter.rs`).
- `get_scaled_rendering_size` and `get_centered_image_rect` are not modelled. They are floating-point and SDL rectangle arithmetic.
- `src/render.rs` is not part of this model. It is not compiled into the program.
- Command-line parsing, the SDL setup and `load_tileset` are left out as I/O.
- The event pump itself is left out. Each event it delivers is a parameter of `Host.Session.HandleEvent`.
- The file and the XML tokenizer are left out. The document is given as its sequence of events (`Collection.Source`), and an unopenable file as `Unopenable`.
- The error type of `src/error.rs` becomes the datatype `Collection.LoadError`. The `Display` text of `InvalidChar` and of the errors is not modelled.
- Host.Session.constructor: requires a non-empty collection. With an empty one the program panics on `unwrap` (`src/main.rs:95`).
- Tiles.Tileset.GetRenderingSize: requires non-negative extents, which every parsed level has (`Grammar.ParsedLevelFacts`). The `as u32` casts are not modelled.
- Integers are unbounded throughout. The `i32` step counter, the `i32` coordinates and the `u32` pixel sizes never wrap in the model.
- The accessors `get_steps`, `extents`, `title`, `row` and `column` are field reads. `is_free`, `is_box`, `is_player`, `is_square` and `is_wall` are the predicates of `Game.LevelData`.
- Iteration order of the hash sets is not modelled. The parser's extents loop visits the cells in an arbitrary order, and the result does not depend on it.
