/**
 * The play session driven by the event loop in src/main.rs: a live level, a
 * reference copy for resets, the levels still to play and the skip flag.
 * Window, drawing and the event pump are not modelled; events are parameters.
 */
module Host {
  import opened Game

  /** The keys the loop reacts to. */
  datatype Keycode = Escape | ArrowLeft | ArrowRight | ArrowUp | ArrowDown | KeyR | KeyN | OtherKey

  /** An event delivered by the window system. */
  datatype Event = Quit | KeyDown(key: Keycode) | OtherEvent

  predicate IsArrow(k: Keycode)
  {
    k == ArrowLeft || k == ArrowRight || k == ArrowUp || k == ArrowDown
  }

  /** The direction an arrow key moves the player. */
  function DirectionOf(k: Keycode): (r: Direction)
    requires IsArrow(k)
    ensures r == Left <==> k == ArrowLeft
    ensures r == Right <==> k == ArrowRight
    ensures r == Up <==> k == ArrowUp
    ensures r == Down <==> k == ArrowDown
  {
    match k
    case ArrowLeft => Left
    case ArrowRight => Right
    case ArrowUp => Up
    case ArrowDown => Down
  }

  class Session {
    /** The level being played. */
    var level: Level
    /** The copy a reset restores. */
    var reference: Level
    /** The levels of the collection not yet reached, in play order. */
    var pending: seq<Level>
    var skip: bool
    var running: bool
    /** The current level as it came out of the collection. */
    ghost var loaded: LevelData

    ghost predicate Valid()
      reads this, reference
    {
      && level != reference && level !in pending && reference !in pending
      && (forall i, j :: 0 <= i < j < |pending| ==> pending[i] != pending[j])
      && reference.Data() == loaded
    }

    /** The start of `main`: the first level becomes the reference and the live level a copy of it. */
    constructor (collection: seq<Level>)
      requires |collection| > 0
      requires forall i, j :: 0 <= i < j < |collection| ==> collection[i] != collection[j]
      ensures Valid()
      ensures reference == collection[0] && loaded == collection[0].Data()
      ensures fresh(level) && level.Data() == loaded
      ensures pending == collection[1..] && !skip && running
    {
      var first := collection[0];
      var copy := first.Clone();
      reference := first;
      level := copy;
      pending := collection[1..];
      skip := false;
      running := true;
      loaded := first.Data();
    }

    /**
     * The head of the loop: a completed or skipped level is replaced by the next
     * one, which also becomes the reference; with no level left the loop ends.
     */
    method NextLevel() returns (more: bool)
      requires Valid()
      modifies this
      ensures Valid()
      ensures running == old(running)
      ensures !old(level.Data().IsCompleted() || skip) ==>
        (more && level == old(level) && reference == old(reference) && pending == old(pending)
         && skip == old(skip) && loaded == old(loaded))
      ensures old(level.Data().IsCompleted() || skip) && old(pending) == [] ==>
        (!more && level == old(level) && reference == old(reference) && pending == []
         && skip == old(skip) && loaded == old(loaded))
      ensures old(level.Data().IsCompleted() || skip) && old(pending) != [] ==>
        (more && level == old(pending)[0] && pending == old(pending)[1..] && !skip
         && fresh(reference) && loaded == old(pending[0].Data()) && level.Data() == loaded)
    {
      if level.Data().IsCompleted() || skip {
        if pending == [] {
          return false;
        }
        var next := pending[0];
        var copy := next.Clone();
        level := next;
        reference := copy;
        skip := false;
        pending := pending[1..];
        loaded := next.Data();
      }
      more := true;
    }

    /** One event: quit, a move, a reset to the reference copy, or a request to skip. */
    method HandleEvent(e: Event)
      requires Valid()
      modifies this, level
      ensures Valid()
      ensures reference == old(reference) && pending == old(pending) && loaded == old(loaded)
      ensures running == (old(running) && e != Quit && e != KeyDown(Escape))
      ensures skip == (old(skip) || e == KeyDown(KeyN))
      ensures e.KeyDown? && IsArrow(e.key) ==>
        level == old(level) && level.Data() == old(level.Data()).AfterStep(DirectionOf(e.key))
      ensures e == KeyDown(KeyR) ==> fresh(level) && level.Data() == loaded
      ensures !(e.KeyDown? && (IsArrow(e.key) || e.key == KeyR)) ==>
        level == old(level) && level.Data() == old(level.Data())
    {
      match e {
        case Quit =>
          running := false;
        case KeyDown(key) =>
          match key {
            case Escape =>
              running := false;
            case ArrowLeft =>
              level.Step(Left);
            case ArrowRight =>
              level.Step(Right);
            case ArrowUp =>
              level.Step(Up);
            case ArrowDown =>
              level.Step(Down);
            case KeyR =>
              level := reference.Clone();
            case KeyN =>
              skip := true;
            case OtherKey =>
          }
        case OtherEvent =>
      }
    }
  }
}
