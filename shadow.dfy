/** The shadow bit flags of src/shadow.rs, over the 32-bit integer the flags are stored in. */
module Shadows {

  type ShadowFlags = bv32

  const EMPTY: ShadowFlags := 0x0
  const N_EDGE: ShadowFlags := 0x1
  const S_EDGE: ShadowFlags := 0x2
  const E_EDGE: ShadowFlags := 0x4
  const W_EDGE: ShadowFlags := 0x8
  const NE_CORNER: ShadowFlags := 0x10
  const NW_CORNER: ShadowFlags := 0x20
  const SE_CORNER: ShadowFlags := 0x40
  const SW_CORNER: ShadowFlags := 0x80

  /** The eight named flags, one per constant. */
  datatype Flag = North | South | East | West | NorthEast | NorthWest | SouthEast | SouthWest

  const ALL_FLAGS: set<Flag> := {North, South, East, West, NorthEast, NorthWest, SouthEast, SouthWest}

  /** The constant that stands for flag `f`. */
  function Bit(f: Flag): ShadowFlags
  {
    match f
    case North => N_EDGE
    case South => S_EDGE
    case East => E_EDGE
    case West => W_EDGE
    case NorthEast => NE_CORNER
    case NorthWest => NW_CORNER
    case SouthEast => SE_CORNER
    case SouthWest => SW_CORNER
  }

  /** Exactly one bit is set. */
  predicate IsSingleBit(b: ShadowFlags)
  {
    b != 0 && b & (b - 1) == 0
  }

  /** Each constant is a single bit, and two different flags share no bit. */
  lemma BitsAreDisjointSingles(f: Flag, g: Flag)
    ensures IsSingleBit(Bit(f))
    ensures f != g ==> Bit(f) & Bit(g) == 0
  {
  }

  /** The edges fill the low nibble and the corners the high nibble of one byte. */
  lemma MasksFillOneByte()
    ensures N_EDGE | S_EDGE | E_EDGE | W_EDGE == 0x0F
    ensures NE_CORNER | NW_CORNER | SE_CORNER | SW_CORNER == 0xF0
  {
  }

  /** The union of a set of flags. */
  function Encode(fs: set<Flag>): (b: ShadowFlags)
    ensures b & !0xFF == 0
    ensures fs == {} ==> b == EMPTY
  {
    (if North in fs then N_EDGE else EMPTY)
    | (if South in fs then S_EDGE else EMPTY)
    | (if East in fs then E_EDGE else EMPTY)
    | (if West in fs then W_EDGE else EMPTY)
    | (if NorthEast in fs then NE_CORNER else EMPTY)
    | (if NorthWest in fs then NW_CORNER else EMPTY)
    | (if SouthEast in fs then SE_CORNER else EMPTY)
    | (if SouthWest in fs then SW_CORNER else EMPTY)
  }

  /** The named flags whose bit is set in `b`. */
  function Decode(b: ShadowFlags): set<Flag>
  {
    set f | f in ALL_FLAGS && b & Bit(f) != 0
  }

  /** A union of flags identifies its members uniquely. */
  lemma DecodeEncode(fs: set<Flag>)
    ensures Decode(Encode(fs)) == fs
  {
    var b := Encode(fs);
    forall f
      ensures f in Decode(b) <==> f in fs
    {
      match f
      case North => assert b & N_EDGE != 0 <==> North in fs;
      case South => assert b & S_EDGE != 0 <==> South in fs;
      case East => assert b & E_EDGE != 0 <==> East in fs;
      case West => assert b & W_EDGE != 0 <==> West in fs;
      case NorthEast => assert b & NE_CORNER != 0 <==> NorthEast in fs;
      case NorthWest => assert b & NW_CORNER != 0 <==> NorthWest in fs;
      case SouthEast => assert b & SE_CORNER != 0 <==> SouthEast in fs;
      case SouthWest => assert b & SW_CORNER != 0 <==> SouthWest in fs;
    }
  }
}
