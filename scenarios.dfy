/** The concrete scenarios the level engine is documented with, checked against the model. */
module Scenarios {
  import opened Wrappers
  import opened Game
  import opened Grammar
  import opened Collection

  /** A three-row level: the player, a box and a target between two walls. */
  const SAMPLE := " ####\n#@$.#\n ####"

  const PREFIX_1 := " ####\n"
  const PREFIX_2 := " ####\n#@$.#\n"
  const PREFIX_3 := " ####\n#@$.#\n ####"

  lemma ScanSampleRow0()
    ensures Scan(PREFIX_1) == Ok(Grid(Position(0, 0), {Position(0, 1), Position(0, 2), Position(0, 3), Position(0, 4)}, {}, {}))
    ensures CursorAfter(PREFIX_1) == Position(1, 0)
  {
    var s := "";
    ScanSnoc(s, ' ');
    s := s + [' '];
    assert CursorAfter(s) == Position(0, 1);
    assert Scan(s).Ok? && Scan(s).value.player == Position(0, 0);
    assert Scan(s).value.walls == {};
    assert Scan(s).value.boxes == {} && Scan(s).value.squares == {};
    ScanSnoc(s, '#');
    s := s + ['#'];
    assert CursorAfter(s) == Position(0, 2);
    assert Scan(s).Ok? && Scan(s).value.player == Position(0, 0);
    assert Scan(s).value.walls == {Position(0, 1)};
    assert Scan(s).value.boxes == {} && Scan(s).value.squares == {};
    ScanSnoc(s, '#');
    s := s + ['#'];
    assert CursorAfter(s) == Position(0, 3);
    assert Scan(s).Ok? && Scan(s).value.player == Position(0, 0);
    assert Scan(s).value.walls == {Position(0, 1), Position(0, 2)};
    assert Scan(s).value.boxes == {} && Scan(s).value.squares == {};
    ScanSnoc(s, '#');
    s := s + ['#'];
    assert CursorAfter(s) == Position(0, 4);
    assert Scan(s).Ok? && Scan(s).value.player == Position(0, 0);
    assert Scan(s).value.walls == {Position(0, 1), Position(0, 2), Position(0, 3)};
    assert Scan(s).value.boxes == {} && Scan(s).value.squares == {};
    ScanSnoc(s, '#');
    s := s + ['#'];
    assert CursorAfter(s) == Position(0, 5);
    assert Scan(s).Ok? && Scan(s).value.player == Position(0, 0);
    assert Scan(s).value.walls == {Position(0, 1), Position(0, 2), Position(0, 3), Position(0, 4)};
    assert Scan(s).value.boxes == {} && Scan(s).value.squares == {};
    ScanSnoc(s, '\n');
    s := s + ['\n'];
    assert CursorAfter(s) == Position(1, 0);
    assert Scan(s).Ok? && Scan(s).value.player == Position(0, 0);
    assert Scan(s).value.walls == {Position(0, 1), Position(0, 2), Position(0, 3), Position(0, 4)};
    assert Scan(s).value.boxes == {} && Scan(s).value.squares == {};
    assert s == PREFIX_1;
  }

  lemma ScanSampleRow1()
    requires Scan(PREFIX_1) == Ok(Grid(Position(0, 0), {Position(0, 1), Position(0, 2), Position(0, 3), Position(0, 4)}, {}, {}))
    requires CursorAfter(PREFIX_1) == Position(1, 0)
    ensures Scan(PREFIX_2) == Ok(Grid(Position(1, 1), {Position(0, 1), Position(0, 2), Position(0, 3), Position(0, 4), Position(1, 0), Position(1, 4)}, {Position(1, 2)}, {Position(1, 3)}))
    ensures CursorAfter(PREFIX_2) == Position(2, 0)
  {
    var s := PREFIX_1;
    ScanSnoc(s, '#');
    s := s + ['#'];
    assert CursorAfter(s) == Position(1, 1);
    assert Scan(s).Ok? && Scan(s).value.player == Position(0, 0);
    assert Scan(s).value.walls == {Position(0, 1), Position(0, 2), Position(0, 3), Position(0, 4), Position(1, 0)};
    assert Scan(s).value.boxes == {} && Scan(s).value.squares == {};
    ScanSnoc(s, '@');
    s := s + ['@'];
    assert CursorAfter(s) == Position(1, 2);
    assert Scan(s).Ok? && Scan(s).value.player == Position(1, 1);
    assert Scan(s).value.walls == {Position(0, 1), Position(0, 2), Position(0, 3), Position(0, 4), Position(1, 0)};
    assert Scan(s).value.boxes == {} && Scan(s).value.squares == {};
    ScanSnoc(s, '$');
    s := s + ['$'];
    assert CursorAfter(s) == Position(1, 3);
    assert Scan(s).Ok? && Scan(s).value.player == Position(1, 1);
    assert Scan(s).value.walls == {Position(0, 1), Position(0, 2), Position(0, 3), Position(0, 4), Position(1, 0)};
    assert Scan(s).value.boxes == {Position(1, 2)} && Scan(s).value.squares == {};
    ScanSnoc(s, '.');
    s := s + ['.'];
    assert CursorAfter(s) == Position(1, 4);
    assert Scan(s).Ok? && Scan(s).value.player == Position(1, 1);
    assert Scan(s).value.walls == {Position(0, 1), Position(0, 2), Position(0, 3), Position(0, 4), Position(1, 0)};
    assert Scan(s).value.boxes == {Position(1, 2)} && Scan(s).value.squares == {Position(1, 3)};
    ScanSnoc(s, '#');
    s := s + ['#'];
    assert CursorAfter(s) == Position(1, 5);
    assert Scan(s).Ok? && Scan(s).value.player == Position(1, 1);
    assert Scan(s).value.walls == {Position(0, 1), Position(0, 2), Position(0, 3), Position(0, 4), Position(1, 0), Position(1, 4)};
    assert Scan(s).value.boxes == {Position(1, 2)} && Scan(s).value.squares == {Position(1, 3)};
    ScanSnoc(s, '\n');
    s := s + ['\n'];
    assert CursorAfter(s) == Position(2, 0);
    assert Scan(s).Ok? && Scan(s).value.player == Position(1, 1);
    assert Scan(s).value.walls == {Position(0, 1), Position(0, 2), Position(0, 3), Position(0, 4), Position(1, 0), Position(1, 4)};
    assert Scan(s).value.boxes == {Position(1, 2)} && Scan(s).value.squares == {Position(1, 3)};
    assert s == PREFIX_2;
  }

  lemma ScanSampleRow2()
    requires Scan(PREFIX_2) == Ok(Grid(Position(1, 1), {Position(0, 1), Position(0, 2), Position(0, 3), Position(0, 4), Position(1, 0), Position(1, 4)}, {Position(1, 2)}, {Position(1, 3)}))
    requires CursorAfter(PREFIX_2) == Position(2, 0)
    ensures Scan(PREFIX_3) == Ok(Grid(Position(1, 1), {Position(0, 1), Position(0, 2), Position(0, 3), Position(0, 4), Position(1, 0), Position(1, 4), Position(2, 1), Position(2, 2), Position(2, 3), Position(2, 4)}, {Position(1, 2)}, {Position(1, 3)}))
    ensures CursorAfter(PREFIX_3) == Position(2, 5)
  {
    var s := PREFIX_2;
    ScanSnoc(s, ' ');
    s := s + [' '];
    assert CursorAfter(s) == Position(2, 1);
    assert Scan(s).Ok? && Scan(s).value.player == Position(1, 1);
    assert Scan(s).value.walls == {Position(0, 1), Position(0, 2), Position(0, 3), Position(0, 4), Position(1, 0), Position(1, 4)};
    assert Scan(s).value.boxes == {Position(1, 2)} && Scan(s).value.squares == {Position(1, 3)};
    ScanSnoc(s, '#');
    s := s + ['#'];
    assert CursorAfter(s) == Position(2, 2);
    assert Scan(s).Ok? && Scan(s).value.player == Position(1, 1);
    assert Scan(s).value.walls == {Position(0, 1), Position(0, 2), Position(0, 3), Position(0, 4), Position(1, 0), Position(1, 4), Position(2, 1)};
    assert Scan(s).value.boxes == {Position(1, 2)} && Scan(s).value.squares == {Position(1, 3)};
    ScanSnoc(s, '#');
    s := s + ['#'];
    assert CursorAfter(s) == Position(2, 3);
    assert Scan(s).Ok? && Scan(s).value.player == Position(1, 1);
    assert Scan(s).value.walls == {Position(0, 1), Position(0, 2), Position(0, 3), Position(0, 4), Position(1, 0), Position(1, 4), Position(2, 1), Position(2, 2)};
    assert Scan(s).value.boxes == {Position(1, 2)} && Scan(s).value.squares == {Position(1, 3)};
    ScanSnoc(s, '#');
    s := s + ['#'];
    assert CursorAfter(s) == Position(2, 4);
    assert Scan(s).Ok? && Scan(s).value.player == Position(1, 1);
    assert Scan(s).value.walls == {Position(0, 1), Position(0, 2), Position(0, 3), Position(0, 4), Position(1, 0), Position(1, 4), Position(2, 1), Position(2, 2), Position(2, 3)};
    assert Scan(s).value.boxes == {Position(1, 2)} && Scan(s).value.squares == {Position(1, 3)};
    ScanSnoc(s, '#');
    s := s + ['#'];
    assert CursorAfter(s) == Position(2, 5);
    assert Scan(s).Ok? && Scan(s).value.player == Position(1, 1);
    assert Scan(s).value.walls == {Position(0, 1), Position(0, 2), Position(0, 3), Position(0, 4), Position(1, 0), Position(1, 4), Position(2, 1), Position(2, 2), Position(2, 3), Position(2, 4)};
    assert Scan(s).value.boxes == {Position(1, 2)} && Scan(s).value.squares == {Position(1, 3)};
    assert s == PREFIX_3;
  }

  const SAMPLE_WALLS := {Position(0, 1), Position(0, 2), Position(0, 3), Position(0, 4), Position(1, 0), Position(1, 4), Position(2, 1), Position(2, 2), Position(2, 3), Position(2, 4)}

  /** The character scan of the sample level. */
  lemma ScanSample()
    ensures Scan(SAMPLE) == Ok(Grid(Position(1, 1), SAMPLE_WALLS, {Position(1, 2)}, {Position(1, 3)}))
  {
    ScanSampleRow0();
    ScanSampleRow1();
    ScanSampleRow2();
    assert PREFIX_3 == SAMPLE;
  }

  /** The level the sample describes. */
  const SAMPLE_LEVEL := LevelData("", Position(1, 1), 0, SAMPLE_WALLS, {Position(1, 2)}, {Position(1, 3)}, (5, 3))

  /** The sample parses to the player at row 1 column 1, a box at column 2, a target at column 3 and extents (5, 3). */
  lemma ParseSample()
    ensures ParseLevel(SAMPLE) == Ok(SAMPLE_LEVEL)
    ensures !SAMPLE_LEVEL.IsCompleted()
  {
    ScanSample();
    var g := Scan(SAMPLE).value;
    assert Position(0, 4) in Cells(g) && Position(2, 1) in Cells(g);
    assert IsExtents(g.player, Cells(g), (5, 3));
    ExtentsUnique(g.player, Cells(g), (5, 3), Extents(g.player, Cells(g)));
    assert Position(1, 3) !in SAMPLE_LEVEL.boxes;
  }

  /** Pushing right in the sample moves the box onto the target: the level is completed after one step. */
  lemma PushSample()
    ensures var w := SAMPLE_LEVEL.AfterStep(Right);
      w.player == Position(1, 2) && w.boxes == {Position(1, 3)} && w.steps == 1 && w.IsCompleted()
  {
    var v := SAMPLE_LEVEL;
    var next := Position(1, 2);
    var beyond := Position(1, 3);
    assert v.player.Neighbor(Right) == next;
    assert next.Neighbor(Right) == beyond;
    assert beyond !in SAMPLE_WALLS;
    StepPushesBox(v, Right);
    var w := v.AfterStep(Right);
    assert w.boxes == {beyond} by {
      assert v.boxes - {next} + {beyond} == {beyond};
    }
    assert w.squares == v.squares;
  }

  /** The text collected from a one-row `L` element holding a player and a target. */
  const FIRST_TEXT := "@.\n"
  /** The text collected from a one-row `L` element holding a box and a player on a target. */
  const SECOND_TEXT := "$+\n"

  const FIRST_LEVEL := LevelData("", Position(0, 0), 0, {}, {}, {Position(0, 1)}, (2, 1))
  const SECOND_LEVEL := LevelData("", Position(0, 1), 0, {}, {Position(0, 0)}, {Position(0, 1)}, (2, 1))

  lemma ParseFirstText()
    ensures ParseLevel(FIRST_TEXT) == Ok(FIRST_LEVEL)
  {
    var s := "";
    ScanSnoc(s, '@');
    s := s + ['@'];
    assert Scan(s) == Ok(Grid(Position(0, 0), {}, {}, {}));
    ScanSnoc(s, '.');
    s := s + ['.'];
    assert Scan(s).value.squares == {Position(0, 1)};
    ScanSnoc(s, '\n');
    s := s + ['\n'];
    assert s == FIRST_TEXT;
    var g := Scan(s).value;
    assert g == Grid(Position(0, 0), {}, {}, {Position(0, 1)});
    assert Cells(g) == {Position(0, 1)};
    assert IsExtents(g.player, Cells(g), (2, 1));
    ExtentsUnique(g.player, Cells(g), (2, 1), Extents(g.player, Cells(g)));
  }

  lemma ParseSecondText()
    ensures ParseLevel(SECOND_TEXT) == Ok(SECOND_LEVEL)
  {
    var s := "";
    ScanSnoc(s, '$');
    s := s + ['$'];
    assert Scan(s).value.boxes == {Position(0, 0)};
    ScanSnoc(s, '+');
    s := s + ['+'];
    assert Scan(s).value.player == Position(0, 1) && Scan(s).value.squares == {Position(0, 1)};
    ScanSnoc(s, '\n');
    s := s + ['\n'];
    assert s == SECOND_TEXT;
    var g := Scan(s).value;
    assert g == Grid(Position(0, 1), {}, {Position(0, 0)}, {Position(0, 1)});
    assert Cells(g) == {Position(0, 0), Position(0, 1)};
    assert IsExtents(g.player, Cells(g), (2, 1));
    ExtentsUnique(g.player, Cells(g), (2, 1), Extents(g.player, Cells(g)));
  }

  /** The events of a collection of two titled levels, each with one `L` element of one row. */
  const TWO_LEVELS: seq<XmlEvent> := [
    StartElement("Level", [Attribute("Id", "A")]),
    StartElement("L", []),
    Characters("@."),
    EndElement("L"),
    EndElement("Level"),
    StartElement("Level", [Attribute("Id", "B")]),
    StartElement("L", []),
    Characters("$+"),
    EndElement("L"),
    EndElement("Level")
  ]

  /*
   * The loader state after each prefix of the collection, one event at a time:
   * `LoadAfter<n>` gives the state after the first n events.
   */
  lemma LoadAfter0()
    ensures Run(TWO_LEVELS[..0]) == Ok(START)
  {
    assert TWO_LEVELS[..0] == [];
  }

  lemma LoadAfter1()
    ensures Run(TWO_LEVELS[..1]) == Ok(LoaderState("A", "", false, []))
  {
    LoadAfter0();
    assert TWO_LEVELS[..1] == TWO_LEVELS[..0] + [StartElement("Level", [Attribute("Id", "A")])];
    RunSnoc(TWO_LEVELS[..0], StartElement("Level", [Attribute("Id", "A")]));
  }

  lemma LoadAfter2()
    ensures Run(TWO_LEVELS[..2]) == Ok(LoaderState("A", "", true, []))
  {
    LoadAfter1();
    assert TWO_LEVELS[..2] == TWO_LEVELS[..1] + [StartElement("L", [])];
    RunSnoc(TWO_LEVELS[..1], StartElement("L", []));
  }

  lemma LoadAfter3()
    ensures Run(TWO_LEVELS[..3]) == Ok(LoaderState("A", FIRST_TEXT, true, []))
  {
    LoadAfter2();
    assert TWO_LEVELS[..3] == TWO_LEVELS[..2] + [Characters("@.")];
    RunSnoc(TWO_LEVELS[..2], Characters("@."));
    assert "" + "@." + "\n" == FIRST_TEXT;
  }

  lemma LoadAfter4()
    ensures Run(TWO_LEVELS[..4]) == Ok(LoaderState("A", FIRST_TEXT, true, []))
  {
    LoadAfter3();
    assert TWO_LEVELS[..4] == TWO_LEVELS[..3] + [EndElement("L")];
    RunSnoc(TWO_LEVELS[..3], EndElement("L"));
  }

  lemma LoadAfter5()
    ensures Run(TWO_LEVELS[..5]) == Ok(LoaderState("A", "", true, [FIRST_LEVEL.(title := "A")]))
  {
    LoadAfter4();
    assert TWO_LEVELS[..5] == TWO_LEVELS[..4] + [EndElement("Level")];
    RunSnoc(TWO_LEVELS[..4], EndElement("Level"));
    ParseFirstText();
    assert [] + [FIRST_LEVEL.(title := "A")] == [FIRST_LEVEL.(title := "A")];
  }

  lemma LoadAfter6()
    ensures Run(TWO_LEVELS[..6]) == Ok(LoaderState("B", "", true, [FIRST_LEVEL.(title := "A")]))
  {
    LoadAfter5();
    assert TWO_LEVELS[..6] == TWO_LEVELS[..5] + [StartElement("Level", [Attribute("Id", "B")])];
    RunSnoc(TWO_LEVELS[..5], StartElement("Level", [Attribute("Id", "B")]));
  }

  lemma LoadAfter7()
    ensures Run(TWO_LEVELS[..7]) == Ok(LoaderState("B", "", true, [FIRST_LEVEL.(title := "A")]))
  {
    LoadAfter6();
    assert TWO_LEVELS[..7] == TWO_LEVELS[..6] + [StartElement("L", [])];
    RunSnoc(TWO_LEVELS[..6], StartElement("L", []));
  }

  lemma LoadAfter8()
    ensures Run(TWO_LEVELS[..8]) == Ok(LoaderState("B", SECOND_TEXT, true, [FIRST_LEVEL.(title := "A")]))
  {
    LoadAfter7();
    assert TWO_LEVELS[..8] == TWO_LEVELS[..7] + [Characters("$+")];
    RunSnoc(TWO_LEVELS[..7], Characters("$+"));
    assert "" + "$+" + "\n" == SECOND_TEXT;
  }

  lemma LoadAfter9()
    ensures Run(TWO_LEVELS[..9]) == Ok(LoaderState("B", SECOND_TEXT, true, [FIRST_LEVEL.(title := "A")]))
  {
    LoadAfter8();
    assert TWO_LEVELS[..9] == TWO_LEVELS[..8] + [EndElement("L")];
    RunSnoc(TWO_LEVELS[..8], EndElement("L"));
  }

  lemma LoadAfter10()
    ensures Run(TWO_LEVELS[..10]) == Ok(LoaderState("B", "", true, [FIRST_LEVEL.(title := "A"), SECOND_LEVEL.(title := "B")]))
  {
    LoadAfter9();
    assert TWO_LEVELS[..10] == TWO_LEVELS[..9] + [EndElement("Level")];
    RunSnoc(TWO_LEVELS[..9], EndElement("Level"));
    ParseSecondText();
    assert [FIRST_LEVEL.(title := "A")] + [SECOND_LEVEL.(title := "B")] == [FIRST_LEVEL.(title := "A"), SECOND_LEVEL.(title := "B")];
  }

  /** Two `Level` elements load to two levels in document order, each titled by its `Id`. */
  lemma LoadTwoLevels()
    ensures Load(Events(TWO_LEVELS)) == Ok([FIRST_LEVEL.(title := "A"), SECOND_LEVEL.(title := "B")])
  {
    LoadAfter10();
    assert TWO_LEVELS[..10] == TWO_LEVELS;
  }
}
