/** The constant tables of the game: the two layers a tile is made of,
    the four directions and their row/column steps, the legend that turns
    template characters into element codes, and the shipped level
    templates. */
module SokobanBase {
  import opened Wrappers

  /** The static "2d" layer of a tile: plain floor (`E`) or a target (`T`). */
  datatype Terrain = Plain | Target

  /** The mutable "3d" layer of a tile. Walls live here, not in the
      static layer. */
  datatype Entity = Empty | Wall | Block | Actor

  /** The element codes a template character can stand for (`E`, `W`,
      `T`, `B`, `A`). */
  datatype Code = EmptyCode | WallCode | TargetCode | BlockCode | ActorCode

  datatype Direction = Up | Down | Left | Right

  /** A row/column step. */
  datatype Delta = Delta(dr: int, dc: int)

  /** Everything that can be thrown while validating a template or
      starting a game. */
  datatype GameError =
    | TooFewRows                // 'There should be at least 6 rows'
    | TooFewColumns             // 'There should be at least 6 columns'
    | RaggedRows                // 'All rows should have same number of columns'
    | UnknownChar(ch: char)     // 'Unknown char code ... in template definition'
    | ActorCount                // 'There should be exactly one actor'
    | BlockTargetMismatch       // 'Number of targets should equal number of blocks'
    | NoBlockTargetPair         // 'There should be at least one target and one block'
    | BoardActorCount           // 'The game template should have exactly one actor'
    | NoSuchTemplate            // indexing past the template list

  /** Direction2Diff: every step moves exactly one unit along exactly one
      axis. */
  function Diff(d: Direction): (delta: Delta)
    ensures (delta.dr == 0) != (delta.dc == 0)
    ensures -1 <= delta.dr <= 1 && -1 <= delta.dc <= 1
  {
    match d
    case Up => Delta(-1, 0)
    case Down => Delta(1, 0)
    case Left => Delta(0, -1)
    case Right => Delta(0, 1)
  }

  function Negate(delta: Delta): Delta {
    Delta(-delta.dr, -delta.dc)
  }

  /** Up/Down and Left/Right undo each other. */
  lemma OppositeDirections()
    ensures Diff(Up) == Negate(Diff(Down))
    ensures Diff(Left) == Negate(Diff(Right))
  {
  }

  /** The seven characters a template may use. */
  const Legend: set<char> := {' ', '=', '|', '+', '*', 'X', 'o'}

  /** Char2Code: the template legend. Exactly the seven legend characters
      are mapped; `=`, `|` and `+` all draw walls; every other character is
      unmapped (`undefined` in the JavaScript game). */
  function Char2Code(ch: char): (code: Option<Code>)
    ensures code.Some? <==> ch in Legend
    ensures code == Some(WallCode) <==> ch in {'=', '|', '+'}
    ensures code == Some(EmptyCode) <==> ch == ' '
    ensures code == Some(TargetCode) <==> ch == '*'
    ensures code == Some(BlockCode) <==> ch == 'X'
    ensures code == Some(ActorCode) <==> ch == 'o'
  {
    match ch
    case ' ' => Some(EmptyCode)
    case '=' => Some(WallCode)
    case '|' => Some(WallCode)
    case '+' => Some(WallCode)
    case '*' => Some(TargetCode)
    case 'X' => Some(BlockCode)
    case 'o' => Some(ActorCode)
    case _ => None
  }

  /** A level as shipped: its name (the key in `gameTemplates`) and its rows. */
  datatype NamedTemplate = NamedTemplate(name: string, rows: seq<string>)

  const Tiny: seq<string> := [
    "+====+",
    "| *  |",
    "| X  |",
    "|* X |",
    "| o  |",
    "+====+"
  ]

  const Small: seq<string> := [
    "|======|",
    "| *|   |",
    "|* | | |",
    "|*X|X| |",
    "|      |",
    "|*X  X |",
    "| o|   |",
    "|======|"
  ]

  const Medium: seq<string> := [
    "==========",
    "|   *|   |",
    "|*== | | |",
    "|*  X|X| |",
    "|       *|",
    "|*==X=X= |",
    "|        |",
    "|*  X  X |",
    "|   o|   |",
    "=========="
  ]

  const Large: seq<string> := [
    "                   ",
    "                   ",
    "                   ",
    "    +===+          ",
    "    |   |          ",
    "    |X  |          ",
    "  +=+  X+|         ",
    "  |  X X |         ",
    "+=+ + || |   += ==+",
    "|   | || +===+  **|",
    "| X  X          **|",
    "+===+ === =o==  **|",
    "    |     ========+",
    "    +=====+        ",
    "                   ",
    "                   "
  ]

  /** gameTemplates, in declaration order. */
  const GameTemplates: seq<NamedTemplate> := [
    NamedTemplate("tiny", Tiny),
    NamedTemplate("small", Small),
    NamedTemplate("medium", Medium),
    NamedTemplate("large", Large)
  ]
}
