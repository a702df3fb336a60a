/**
 * The level collection loader of src/main.rs (`load_slc_file`): a fold over
 * the event stream of an SLC document. The XML tokenizer and the file are
 * not modelled: the document is given as its sequence of events.
 */
module Collection {
  import opened Wrappers
  import opened Game
  import opened Grammar

  /** An attribute of a start tag, by local name. */
  datatype Attribute = Attribute(name: string, value: string)

  /** The reader events the loader distinguishes; everything else (whitespace, comments, reader errors) is `Ignored`. */
  datatype XmlEvent =
    | StartElement(name: string, attributes: seq<Attribute>)
    | EndElement(name: string)
    | Characters(data: string)
    | Ignored

  /** The collection file: either it cannot be opened, or it yields its events. */
  datatype Source = Unopenable(reason: string) | Events(events: seq<XmlEvent>)

  /** The unified load error of src/error.rs. */
  datatype LoadError = IoError(reason: string) | ParseError(cause: InvalidChar)

  /** The loader's variables: sticky title, text buffer, the reading flag and the levels so far. */
  datatype LoaderState = LoaderState(title: string, text: string, readingLevel: bool, levels: seq<LevelData>)

  const START := LoaderState("", "", false, [])

  /** The value of the first attribute named `Id`, if any. */
  function FindId(attributes: seq<Attribute>): (r: Option<string>)
    ensures r.None? <==> forall i :: 0 <= i < |attributes| ==> attributes[i].name != "Id"
    ensures r.Some? ==> exists i :: 0 <= i < |attributes| && attributes[i] == Attribute("Id", r.value) &&
                                    forall j :: 0 <= j < i ==> attributes[j].name != "Id"
    decreases |attributes|
  {
    if attributes == [] then None
    else if attributes[0].name == "Id" then Some(attributes[0].value)
    else FindId(attributes[1..])
  }

  /** The effect of one event; only the end of a `Level` element can fail. */
  ghost function Feed(st: LoaderState, e: XmlEvent): (r: Result<LoaderState, InvalidChar>)
    ensures r.Err? ==> e == EndElement("Level")
    ensures r.Ok? ==> st.levels <= r.value.levels
    ensures r.Ok? ==> |r.value.levels| == |st.levels| + (if e == EndElement("Level") then 1 else 0)
    ensures r.Ok? && st.readingLevel ==> r.value.readingLevel
    ensures e == EndElement("Level") ==> (r.Err? <==> ParseLevel(st.text).Err?)
    ensures e == EndElement("Level") && r.Ok? ==>
      r.value.levels == st.levels + [ParseLevel(st.text).value.(title := st.title)] && r.value.text == ""
    ensures e != EndElement("Level") && r.Ok? ==> r.value.levels == st.levels
  {
    match e
    case StartElement(name, attributes) =>
      if name == "L" then
        Ok(st.(readingLevel := true))
      else if name == "Level" then
        match FindId(attributes)
        case Some(id) => Ok(st.(title := id))
        case None => Ok(st)
      else
        Ok(st)
    case EndElement(name) =>
      if name == "Level" then
        match ParseLevel(st.text)
        case Err(err) => Err(err)
        case Ok(level) => Ok(st.(levels := st.levels + [level.(title := st.title)], text := ""))
      else
        Ok(st)
    case Characters(data) =>
      if st.readingLevel then Ok(st.(text := st.text + data + "\n")) else Ok(st)
    case Ignored =>
      Ok(st)
  }

  /** The loader after a sequence of events; the first failure ends it. */
  ghost function Run(events: seq<XmlEvent>): (r: Result<LoaderState, InvalidChar>)
    ensures r.Err? ==> EndElement("Level") in events
    ensures r.Ok? ==> |r.value.levels| <= |events|
    decreases |events|
  {
    if events == [] then
      Ok(START)
    else
      match Run(events[..|events| - 1])
      case Err(e) => Err(e)
      case Ok(st) => Feed(st, events[|events| - 1])
  }

  /** Feeding one more event: the load so far, then that event. */
  lemma RunSnoc(events: seq<XmlEvent>, e: XmlEvent)
    ensures Run(events + [e]) == if Run(events).Err? then Run(events) else Feed(Run(events).value, e)
  {
    assert (events + [e])[..|events|] == events;
  }

  /** What `load_slc_file` returns for a source. */
  ghost function Load(src: Source): (r: Result<seq<LevelData>, LoadError>)
    ensures src.Unopenable? ==> r == Err(IoError(src.reason))
    ensures src.Events? && r.Err? ==> r.error.ParseError? && EndElement("Level") in src.events
    ensures r.Ok? ==> src.Events? && |r.value| == multiset(src.events)[EndElement("Level")]
  {
    match src
    case Unopenable(reason) => Err(IoError(reason))
    case Events(events) =>
      match Run(events)
      case Err(e) => Err(ParseError(e))
      case Ok(st) => RunCountsLevels(events); Ok(st.levels)
  }

  /** Once a prefix of the events has failed, the whole load fails the same way. */
  lemma {:induction false} RunErrorPersists(events: seq<XmlEvent>, n: nat)
    requires n <= |events| && Run(events[..n]).Err?
    ensures Run(events) == Run(events[..n])
    decreases |events| - n
  {
    if n == |events| {
      assert events[..n] == events;
    } else {
      var init := events[..|events| - 1];
      assert init[..n] == events[..n];
      RunErrorPersists(init, n);
    }
  }

  /**
   * Levels come out in document order: when the whole load succeeds, every
   * prefix of the events loads successfully, to a prefix of the levels.
   */
  lemma {:induction false} RunPrefix(events: seq<XmlEvent>, n: nat)
    requires n <= |events| && Run(events).Ok?
    ensures Run(events[..n]).Ok? && Run(events[..n]).value.levels <= Run(events).value.levels
    decreases |events| - n
  {
    if n == |events| {
      assert events[..n] == events;
    } else {
      var init := events[..|events| - 1];
      assert init[..n] == events[..n];
      RunPrefix(init, n);
    }
  }

  /** One level per `Level` end tag. */
  lemma {:induction false} RunCountsLevels(events: seq<XmlEvent>)
    requires Run(events).Ok?
    ensures |Run(events).value.levels| == multiset(events)[EndElement("Level")]
    decreases |events|
  {
    if events != [] {
      var init := events[..|events| - 1];
      RunCountsLevels(init);
      assert events == init + [events[|events| - 1]];
    }
  }

  /** The reading flag is set exactly when an `L` element has started; nothing resets it. */
  lemma {:induction false} RunReadingLevel(events: seq<XmlEvent>)
    requires Run(events).Ok?
    ensures Run(events).value.readingLevel <==>
      exists i :: 0 <= i < |events| && events[i].StartElement? && events[i].name == "L"
    decreases |events|
  {
    if events != [] {
      var init := events[..|events| - 1];
      RunReadingLevel(init);
      assert forall i :: 0 <= i < |init| ==> init[i] == events[i];
    }
  }

  /** The character data among `events`, each chunk followed by a newline. */
  function Chunks(events: seq<XmlEvent>): string
    decreases |events|
  {
    if events == [] then
      ""
    else
      var last := events[|events| - 1];
      Chunks(events[..|events| - 1]) + (if last.Characters? then last.data + "\n" else "")
  }

  /** Until the first `L` start tag, no character data is collected. */
  lemma {:induction false} RunTextIdle(events: seq<XmlEvent>)
    requires Run(events).Ok?
    ensures !Run(events).value.readingLevel ==> Run(events).value.text == ""
    decreases |events|
  {
    if events != [] {
      RunTextIdle(events[..|events| - 1]);
    }
  }

  /**
   * Once reading has started, the text is what it was plus every chunk of
   * character data since, each followed by a newline, up to the next `Level`
   * end tag; this holds inside and outside `L` elements alike.
   */
  lemma {:induction false} RunTextSince(events: seq<XmlEvent>, n: nat)
    requires n <= |events| && Run(events).Ok?
    requires Run(events[..n]).Ok? && Run(events[..n]).value.readingLevel
    requires forall i :: n <= i < |events| ==> events[i] != EndElement("Level")
    ensures Run(events).value.readingLevel
    ensures Run(events).value.text == Run(events[..n]).value.text + Chunks(events[n..])
    decreases |events| - n
  {
    if n == |events| {
      assert events[..n] == events;
      assert events[n..] == [];
    } else {
      var init := events[..|events| - 1];
      assert init[..n] == events[..n];
      RunTextSince(init, n);
      assert events[n..][..|events[n..]| - 1] == init[n..];
    }
  }

  /**
   * The `Level` end tag at index `k` parses the text collected so far, appends
   * that level stamped with the current title, and clears the text; in the
   * finished load it is the level at the index of the levels before it.
   */
  lemma LevelAtEndTag(events: seq<XmlEvent>, k: nat)
    requires k < |events| && events[k] == EndElement("Level") && Run(events).Ok?
    ensures Run(events[..k]).Ok? && Run(events[..k + 1]).Ok?
    ensures var st := Run(events[..k]).value;
      && ParseLevel(st.text).Ok?
      && Run(events[..k + 1]).value.levels == st.levels + [ParseLevel(st.text).value.(title := st.title)]
      && Run(events[..k + 1]).value.text == ""
      && Run(events[..k + 1]).value.levels <= Run(events).value.levels
      && Run(events).value.levels[|st.levels|] == ParseLevel(st.text).value.(title := st.title)
  {
    RunPrefix(events, k);
    RunPrefix(events, k + 1);
    assert events[..k + 1][..k] == events[..k];
  }

  /** A `Level` start tag that carries an `Id` attribute. */
  predicate IsTitledLevelStart(e: XmlEvent)
  {
    e.StartElement? && e.name == "Level" && FindId(e.attributes).Some?
  }

  /**
   * The current title is the `Id` of the last `Level` start tag that has one,
   * and stays empty until such a tag is seen.
   */
  lemma {:induction false} RunTitle(events: seq<XmlEvent>)
    requires Run(events).Ok?
    ensures (forall i :: 0 <= i < |events| ==> !IsTitledLevelStart(events[i])) ==> Run(events).value.title == ""
    ensures forall k :: (0 <= k < |events| && IsTitledLevelStart(events[k]) &&
                         forall j :: k < j < |events| ==> !IsTitledLevelStart(events[j]))
                        ==> Run(events).value.title == FindId(events[k].attributes).value
    decreases |events|
  {
    if events != [] {
      var n := |events| - 1;
      var init := events[..n];
      RunTitle(init);
      assert forall i :: 0 <= i < n ==> init[i] == events[i];
    }
  }

  /**
   * A `Level` end tag whose collected text does not parse aborts the whole
   * load with that parse error; no part of the collection is returned.
   */
  lemma BadLevelAbortsLoad(events: seq<XmlEvent>, k: nat)
    requires k < |events| && events[k] == EndElement("Level")
    requires Run(events[..k]).Ok? && ParseLevel(Run(events[..k]).value.text).Err?
    ensures Load(Events(events)) == Err(ParseError(ParseLevel(Run(events[..k]).value.text).error))
  {
    assert events[..k + 1][..k] == events[..k];
    RunErrorPersists(events, k + 1);
  }

  /** `load_slc_file`: opens the source and folds its events into a collection of levels. */
  method LoadSlcFile(src: Source) returns (r: Result<seq<Level>, LoadError>)
    ensures r.Err? <==> Load(src).Err?
    ensures r.Err? ==> r.error == Load(src).error
    ensures r.Ok? ==> |r.value| == |Load(src).value|
    ensures r.Ok? ==> forall i :: 0 <= i < |r.value| ==> fresh(r.value[i]) && r.value[i].Data() == Load(src).value[i]
    ensures r.Ok? ==> forall i, j :: 0 <= i < j < |r.value| ==> r.value[i] != r.value[j]
  {
    var collection: seq<Level> := [];
    if src.Unopenable? {
      return Err(IoError(src.reason));
    }
    var events := src.events;
    var levelTitle := "";
    var levelStr := "";
    var readingLevel := false;
    var i := 0;
    ghost var st := START;
    while i < |events|
      invariant 0 <= i <= |events|
      invariant Run(events[..i]) == Ok(st)
      invariant st.title == levelTitle && st.text == levelStr && st.readingLevel == readingLevel
      invariant |st.levels| == |collection|
      invariant forall k :: 0 <= k < |collection| ==> fresh(collection[k]) && collection[k].Data() == st.levels[k]
      invariant forall k, l :: 0 <= k < l < |collection| ==> collection[k] != collection[l]
    {
      var e := events[i];
      assert events[..i + 1][..i] == events[..i];
      ghost var next := Feed(st, e);
      assert Run(events[..i + 1]) == next;
      match e {
        case StartElement(name, attributes) =>
          if name == "L" {
            readingLevel := true;
          } else if name == "Level" {
            var id := FindId(attributes);
            if id.Some? {
              levelTitle := id.value;
            }
          }
        case EndElement(name) =>
          if name == "Level" {
            var parsed := FromStr(levelStr);
            if parsed.Err? {
              RunErrorPersists(events, i + 1);
              return Err(ParseError(parsed.error));
            }
            var level := parsed.value;
            level.SetTitle(levelTitle);
            collection := collection + [level];
            levelStr := "";
          }
        case Characters(data) =>
          if readingLevel {
            levelStr := levelStr + data;
            levelStr := levelStr + "\n";
          }
        case Ignored =>
      }
      st := next.value;
      i := i + 1;
    }
    assert events[..i] == events;
    r := Ok(collection);
  }
}
