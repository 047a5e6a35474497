/**
 * Values shared by the game engine, the session area and the setup board:
 * the five ship pieces with their fixed lengths, board cells, the two kinds
 * of board, and the error kinds the game raises.
 */
module BattleShipTypes {

  datatype Option<+T> = None | Some(value: T)

  /** The value of a successful operation, or the error it raised. */
  datatype Result<+T, +E> = Ok(value: T) | Err(error: E)

  /** The outcome of an operation that returns nothing when it succeeds. */
  datatype Outcome<+E> = Pass | Fail(error: E)

  /** Player and game identities are opaque strings. */
  type PlayerId = string
  type GameId = string

  /** The board pieces, in the order in which they are declared. */
  datatype ShipKind = Destroyer | Submarine | Cruiser | Battleship | Carrier

  /** Every piece once, in declaration order. */
  const AllKinds: seq<ShipKind> := [Destroyer, Submarine, Cruiser, Battleship, Carrier]

  /** The number of cells a piece occupies. */
  function Length(k: ShipKind): (n: nat)
    ensures 2 <= n <= 5
    ensures n == 5 <==> k == Carrier
    ensures n == 2 <==> k == Destroyer
    ensures n == 3 <==> (k == Submarine || k == Cruiser)
    ensures n == 4 <==> k == Battleship
  {
    match k
    case Destroyer => 2
    case Submarine => 3
    case Cruiser => 3
    case Battleship => 4
    case Carrier => 5
  }

  /** Position of a piece in declaration order. */
  function Rank(k: ShipKind): (r: nat)
    ensures r < |AllKinds| && AllKinds[r] == k
  {
    match k
    case Destroyer => 0
    case Submarine => 1
    case Cruiser => 2
    case Battleship => 3
    case Carrier => 4
  }

  /** The name of a piece as it appears in messages. */
  function Name(k: ShipKind): string {
    match k
    case Destroyer => "Destroyer"
    case Submarine => "Submarine"
    case Cruiser => "Cruiser"
    case Battleship => "Battleship"
    case Carrier => "Carrier"
  }

  /** A board position; `x` is the first (outer) index, `y` the second. */
  datatype Cell = Cell(x: int, y: int)

  /** The 10 x 10 playing area. */
  predicate InBoard(c: Cell) {
    0 <= c.x <= 9 && 0 <= c.y <= 9
  }

  /** A board of pieces; a cell without a key is empty. */
  type ShipBoard = map<Cell, ShipKind>

  datatype Marker = Hit | Miss

  /** Outcomes of the attacks made against one player; an absent key is unmarked. */
  type MarkerBoard = map<Cell, Marker>

  /** Every key of the map lies on the 10 x 10 board. */
  predicate KeysInBoard<V>(m: map<Cell, V>) {
    forall c :: c in m ==> InBoard(c)
  }

  /** Why a submitted ship layout was refused. */
  datatype SetupError =
    | Duplicate(kind: ShipKind)
    | Incomplete(kind: ShipKind)
    | NotEnoughSpace(kind: ShipKind)
    | Missing(kinds: seq<ShipKind>)

  /** The errors raised by the game and by the session area. */
  datatype GameError =
    | PlayerAlreadyInGame
    | GameFull
    | PlayerNotInGame
    | GameNotInProgress
    | NotYourTurn
    | PositionOutOfRange
    | BoardPositionNotEmpty
    | InvalidSetup(reason: SetupError)
    | GameIdMismatch
    | InvalidCommand
}
