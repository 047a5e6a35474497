/**
 * The two-seat BattleShip game engine. Its transitions are first given as
 * pure functions over a game value (the seat list kept by the game base class
 * plus the game state record), with the properties the game promises proved
 * about them; the game object below then updates its fields in place and is
 * proved to follow those functions.
 */
module GameEngine {
  import opened BattleShipTypes
  import opened BoardValidator

  /** The engine's internal phases. */
  datatype Phase = GameWait | GameStart | GameMain | GameEnd

  /** The status a game reports to the rest of the town. */
  datatype Status = WaitingToStart | InProgress | Over

  /** The status each phase is reported as. */
  function ExternalStatus(p: Phase): (s: Status)
    ensures s == WaitingToStart <==> p == GameWait
    ensures s == Over <==> p == GameEnd
  {
    match p
    case GameWait => WaitingToStart
    case GameStart => InProgress
    case GameMain => InProgress
    case GameEnd => Over
  }

  /**
   * The game state record. `p1Board`/`p2Board` are the live ship boards that
   * attacks read and clear; the marker board of a player records the shots
   * fired at that player; a player's sunken list holds that player's own
   * ships that were sunk. An absent key is an undefined cell.
   */
  datatype GameState = GameState(
    p1: Option<PlayerId>,
    p2: Option<PlayerId>,
    p1InitialBoard: ShipBoard,
    p2InitialBoard: ShipBoard,
    p1Board: ShipBoard,
    p2Board: ShipBoard,
    p1MarkerBoard: MarkerBoard,
    p2MarkerBoard: MarkerBoard,
    p1SunkenShips: seq<ShipKind>,
    p2SunkenShips: seq<ShipKind>,
    turnPlayer: Option<PlayerId>,
    winner: Option<PlayerId>,
    internalState: Phase,
    status: Status)

  /** A game: the players the base class has admitted, in joining order, and the state record. */
  datatype Game = Game(players: seq<PlayerId>, state: GameState)

  /** The state of a freshly constructed game. */
  function InitialState(): GameState {
    GameState(None, None, map[], map[], map[], map[], map[], map[], [], [], None, None, GameWait, WaitingToStart)
  }

  /** The moves a player can make. */
  datatype BattleShipMove = SetupMove(board: ShipBoard) | AttackMove(posX: int, posY: int)

  /** A move as the session area forwards it to the game. */
  datatype GameMove = GameMove(gameID: GameId, playerID: PlayerId, move: BattleShipMove)

  /** id holds one of the two seats. */
  predicate Seated(s: GameState, id: PlayerId) {
    s.p1 == Some(id) || s.p2 == Some(id)
  }

  /** The seat list without id, in the same order. */
  function Without(players: seq<PlayerId>, id: PlayerId): (r: seq<PlayerId>)
    ensures forall p :: p in r <==> p in players && p != id
    ensures |r| <= |players|
  {
    if players == [] then []
    else (if players[0] == id then [] else [players[0]]) + Without(players[1..], id)
  }

  // ---------------------------------------------------------------------------
  // The two sides of an attack. `p2side` selects the second player's boards.

  function Markers(s: GameState, p2side: bool): MarkerBoard {
    if p2side then s.p2MarkerBoard else s.p1MarkerBoard
  }

  function Ships(s: GameState, p2side: bool): ShipBoard {
    if p2side then s.p2Board else s.p1Board
  }

  function Sunk(s: GameState, p2side: bool): seq<ShipKind> {
    if p2side then s.p2SunkenShips else s.p1SunkenShips
  }

  function Seat(s: GameState, p2side: bool): Option<PlayerId> {
    if p2side then s.p2 else s.p1
  }

  // ---------------------------------------------------------------------------
  // The transitions.

  /** Seats a player: the first becomes p1 and waits, the second becomes p2 and starts the setup. */
  function Join(g: Game, id: PlayerId): (r: Result<Game, GameError>)
    ensures r.Err? <==> id in g.players || |g.players| == 2
    ensures r.Err? ==> r.error == (if id in g.players then PlayerAlreadyInGame else GameFull)
    ensures r.Ok? ==>
      && r.value.players == g.players + [id] && Seated(r.value.state, id)
      && r.value.state.status == ExternalStatus(r.value.state.internalState)
  {
    if id in g.players then Err(PlayerAlreadyInGame)
    else if |g.players| == 2 then Err(GameFull)
    else if |g.players| == 0 then
      Ok(Game(g.players + [id], g.state.(p1 := Some(id), internalState := GameWait, status := ExternalStatus(GameWait))))
    else
      Ok(Game(g.players + [id], g.state.(p2 := Some(id), internalState := GameStart, status := ExternalStatus(GameStart))))
  }

  /** Frees the seat of a leaving player; when p1 leaves, p2 moves up to the first seat. */
  function Vacate(s: GameState, id: PlayerId): (r: GameState)
    ensures r.p2 == None && r.(p1 := s.p1, p2 := s.p2) == s
    ensures Seated(s, id) ==> forall p :: p != id ==> (Seated(r, p) <==> Seated(s, p))
    ensures s.p1 != s.p2 ==> !Seated(r, id)
  {
    if s.p1 == Some(id) then s.(p1 := s.p2, p2 := None) else s.(p2 := None)
  }

  /**
   * Removes a player: the seat list loses them and the state changes as
   * Departed says.
   */
  function Leave(g: Game, id: PlayerId): (r: Result<Game, GameError>)
    ensures r.Err? <==> !Seated(g.state, id)
    ensures r.Err? ==> r.error == PlayerNotInGame
    ensures r.Ok? ==> forall p :: p in r.value.players <==> p in g.players && p != id
  {
    if !Seated(g.state, id) then Err(PlayerNotInGame)
    else Ok(Game(Without(g.players, id), Departed(g.state, id)))
  }

  /**
   * The state after a seated player leaves: before the main phase the seat is
   * freed (and a started setup is reset), in the main phase the other seat
   * wins, afterwards nothing changes.
   */
  function Departed(s: GameState, id: PlayerId): (r: GameState)
    ensures r.internalState == (if s.internalState in {GameWait, GameStart} then GameWait else GameEnd)
    ensures s.status == ExternalStatus(s.internalState) ==> r.status == ExternalStatus(r.internalState)
    ensures r.p1MarkerBoard == s.p1MarkerBoard && r.p2MarkerBoard == s.p2MarkerBoard
    ensures r.p1Board == s.p1Board && r.p2Board == s.p2Board
    ensures r.p1SunkenShips == s.p1SunkenShips && r.p2SunkenShips == s.p2SunkenShips
    ensures s.internalState == GameMain && s.p1 != s.p2 ==> r.winner != Some(id)
  {
    match s.internalState
    case GameWait => Vacate(s, id)
    case GameStart =>
      Vacate(s, id).(p1InitialBoard := map[], p2InitialBoard := map[],
                     internalState := GameWait, status := ExternalStatus(GameWait))
    case GameMain =>
      s.(winner := if s.p1 == Some(id) then s.p2 else s.p1,
         internalState := GameEnd, status := ExternalStatus(GameEnd))
    case GameEnd => s
  }

  /**
   * Stores a player's validated setup board; once both boards are in, the main
   * phase begins with the first seat to move. A second submission is out of turn.
   */
  function Setup(g: Game, id: PlayerId, board: ShipBoard): (r: Result<Game, GameError>)
    ensures var s := g.state;
      r.Ok? <==>
        && Seated(s, id) && s.internalState == GameStart
        && (if s.p1 == Some(id) then s.p1InitialBoard else s.p2InitialBoard) == map[]
        && Validate(board).Ok?
    ensures r.Ok? ==> r.value.players == g.players
    ensures r.Ok? ==> (if g.state.p1 == Some(id) then r.value.state.p1InitialBoard else r.value.state.p2InitialBoard) == board
  {
    SetupWith(g, id, board, Validate(board))
  }

  /** The setup handler, given the validator's verdict on the submitted board. */
  function SetupWith(g: Game, id: PlayerId, board: ShipBoard, verdict: Result<Fleet, SetupError>): (r: Result<Game, GameError>)
    ensures var s := g.state;
      r.Ok? <==>
        && Seated(s, id) && s.internalState == GameStart
        && (if s.p1 == Some(id) then s.p1InitialBoard else s.p2InitialBoard) == map[]
        && verdict.Ok?
    ensures r.Ok? ==> r.value.players == g.players
    ensures r.Ok? ==> (if g.state.p1 == Some(id) then r.value.state.p1InitialBoard else r.value.state.p2InitialBoard) == board
    ensures r.Ok? ==>
      var t := r.value.state;
      t.internalState == GameMain <==> t.p1InitialBoard != map[] && t.p2InitialBoard != map[]
  {
    var s := g.state;
    if !Seated(s, id) then Err(PlayerNotInGame)
    else if s.internalState == GameWait then Err(GameNotInProgress)
    else if (if s.p1 == Some(id) then s.p1InitialBoard else s.p2InitialBoard) != map[] then Err(NotYourTurn)
    else if s.internalState != GameStart then Err(GameNotInProgress)
    else if verdict.Err? then Err(InvalidSetup(verdict.error))
    else
      var s1 := if s.p1 == Some(id) then s.(p1InitialBoard := board) else s.(p2InitialBoard := board);
      if s1.p1InitialBoard != map[] && s1.p2InitialBoard != map[] then
        Ok(Game(g.players, s1.(internalState := GameMain, status := ExternalStatus(GameMain), turnPlayer := s1.p1)))
      else
        Ok(Game(g.players, s1))
  }

  /**
   * The state after a shot at c by id, once every guard has passed: a miss is
   * recorded and the turn passes; a hit is recorded, the cell is cleared and
   * the outcome follows from the two facts the game reads off the cleared board.
   */
  function Resolve(s: GameState, id: PlayerId, c: Cell): (r: GameState)
    ensures c in Markers(r, s.p1 == Some(id))
    ensures var d := s.p1 == Some(id);
      c !in Ships(s, d) ==> r.turnPlayer == Seat(s, d) && r.winner == s.winner && r.internalState == s.internalState
    ensures var d := s.p1 == Some(id);
      c in Ships(s, d) && Ships(s, d) - {c} == map[] ==> r.winner == Some(id) && r.internalState == GameEnd
  {
    var d := s.p1 == Some(id);
    var ships := Ships(s, d);
    if c !in ships then
      var s1 := if d then s.(p2MarkerBoard := s.p2MarkerBoard[c := Miss]) else s.(p1MarkerBoard := s.p1MarkerBoard[c := Miss]);
      s1.(turnPlayer := Seat(s, d))
    else
      Struck(s, id, c, ShipHasSunk(ships, c), NoShipsRemaining(ships, c))
  }

  /** After the hit at c is cleared, no cell of the hit kind is left. */
  predicate ShipHasSunk(ships: ShipBoard, c: Cell)
    requires c in ships
  {
    ships[c] !in (ships - {c}).Values
  }

  /** After the hit at c is cleared, the board holds no ship at all. */
  predicate NoShipsRemaining(ships: ShipBoard, c: Cell) {
    ships - {c} == map[]
  }

  /**
   * A hit at c on the defender's live board, given whether the hit kind sank
   * and whether any ship is left: the hit is recorded and the cell cleared, a
   * sunk kind joins the defender's sunken list, and the game ends with the
   * attacker as winner or the turn passes to the defender.
   */
  function Struck(s: GameState, id: PlayerId, c: Cell, shipHasSunk: bool, noShipsRemaining: bool): (r: GameState)
    requires c in Ships(s, s.p1 == Some(id))
    ensures c in Markers(r, s.p1 == Some(id))
    ensures noShipsRemaining ==> r.winner == Some(id) && r.internalState == GameEnd
    ensures !noShipsRemaining ==>
      r.turnPlayer == Seat(s, s.p1 == Some(id)) && r.winner == s.winner && r.internalState == s.internalState
  {
    var d := s.p1 == Some(id);
    var opponent := Seat(s, d);
    var hit := Ships(s, d)[c];
    var rest := Ships(s, d) - {c};
    var s1 := if d then s.(p2MarkerBoard := s.p2MarkerBoard[c := Hit], p2Board := rest)
              else s.(p1MarkerBoard := s.p1MarkerBoard[c := Hit], p1Board := rest);
    var s2 := if !shipHasSunk then s1
              else if opponent == s.p1 then s1.(p1SunkenShips := s1.p1SunkenShips + [hit])
              else s1.(p2SunkenShips := s1.p2SunkenShips + [hit]);
    if noShipsRemaining then s2.(winner := Some(id), internalState := GameEnd, status := ExternalStatus(GameEnd))
    else s2.(turnPlayer := opponent)
  }

  /** An attack: the guards in the order the game checks them, then the shot. */
  function Attack(g: Game, id: PlayerId, posX: int, posY: int): (r: Result<Game, GameError>)
    ensures var s := g.state;
      r.Ok? <==>
        && Seated(s, id) && s.internalState == GameMain && s.turnPlayer == Some(id)
        && 0 <= posX <= 9 && 0 <= posY <= 9 && Cell(posX, posY) !in Markers(s, s.p1 == Some(id))
    ensures r.Ok? ==> r.value.players == g.players && Cell(posX, posY) in Markers(r.value.state, g.state.p1 == Some(id))
  {
    var s := g.state;
    if !Seated(s, id) then Err(PlayerNotInGame)
    else if s.internalState != GameMain then Err(GameNotInProgress)
    else if s.turnPlayer != Some(id) then Err(NotYourTurn)
    else if !(0 <= posX <= 9) || !(0 <= posY <= 9) then Err(PositionOutOfRange)
    else if Cell(posX, posY) in Markers(s, s.p1 == Some(id)) then Err(BoardPositionNotEmpty)
    else Ok(Game(g.players, Resolve(s, id, Cell(posX, posY))))
  }

  /** A move goes to the setup or the attack handler according to its kind. */
  function ApplyMove(g: Game, m: GameMove): (r: Result<Game, GameError>)
    ensures r.Ok? ==> r.value.players == g.players
    ensures r.Ok? ==> g.state.internalState == (if m.move.SetupMove? then GameStart else GameMain)
  {
    match m.move
    case SetupMove(board) => Setup(g, m.playerID, board)
    case AttackMove(x, y) => Attack(g, m.playerID, x, y)
  }

  // ---------------------------------------------------------------------------
  // The invariant every reachable game keeps.

  /** The sunken list of one side: no kind twice, and no sunk kind left on that side's live board. */
  predicate SunkList(sunk: seq<ShipKind>, board: ShipBoard) {
    && (forall i, j :: 0 <= i < j < |sunk| ==> sunk[i] != sunk[j])
    && (forall k :: k in sunk ==> k !in board.Values)
  }

  predicate Inv(g: Game) {
    var s := g.state;
    && s.status == ExternalStatus(s.internalState)
    && |g.players| <= 2
    && (s.internalState == GameStart || s.internalState == GameMain ==> |g.players| == 2)
    && (s.internalState == GameMain || s.internalState == GameEnd ==>
          s.p1InitialBoard != map[] && s.p2InitialBoard != map[])
    && (s.p1InitialBoard == map[] && s.p2InitialBoard != map[] ==>
          s.internalState == GameStart && s.p1 != s.p2)
    && (s.internalState == GameMain ==> s.p1 != s.p2)
    && KeysInBoard(s.p1Board) && KeysInBoard(s.p2Board)
    && KeysInBoard(s.p1MarkerBoard) && KeysInBoard(s.p2MarkerBoard)
    && SunkList(s.p1SunkenShips, s.p1Board) && SunkList(s.p2SunkenShips, s.p2Board)
  }

  lemma InitialInv()
    ensures Inv(Game([], InitialState()))
  {
  }

  /** Joining keeps the invariant, and with it the status projection. */
  lemma JoinInv(g: Game, id: PlayerId)
    requires Inv(g) && Join(g, id).Ok?
    ensures Inv(Join(g, id).value)
  {
  }

  /** Leaving keeps the invariant. */
  lemma LeaveInv(g: Game, id: PlayerId)
    requires Inv(g) && Leave(g, id).Ok?
    ensures Inv(Leave(g, id).value)
  {
  }

  /** Submitting a setup board keeps the invariant; in particular the seats differ once the main phase starts. */
  lemma SetupInv(g: Game, id: PlayerId, board: ShipBoard)
    requires Inv(g) && Setup(g, id, board).Ok?
    ensures Inv(Setup(g, id, board).value)
  {
    ValidNonEmpty(board);
    SetupWithInv(g, id, board, Validate(board));
  }

  lemma SetupWithInv(g: Game, id: PlayerId, board: ShipBoard, verdict: Result<Fleet, SetupError>)
    requires Inv(g) && (verdict.Ok? ==> board != map[]) && SetupWith(g, id, board, verdict).Ok?
    ensures Inv(SetupWith(g, id, board, verdict).value)
  {
  }

  /** Clearing a hit cell keeps a side's sunken list valid, whether or not the hit kind is appended. */
  lemma SunkAfterHit(sunk: seq<ShipKind>, ships: ShipBoard, c: Cell)
    requires SunkList(sunk, ships) && c in ships
    ensures ships[c] in (ships - {c}).Values ==> SunkList(sunk, ships - {c})
    ensures ships[c] !in (ships - {c}).Values ==> SunkList(sunk + [ships[c]], ships - {c})
  {
    var hit := ships[c];
    assert hit in ships.Values;
    assert forall k :: k in (ships - {c}).Values ==> k in ships.Values by {
      forall k | k in (ships - {c}).Values
        ensures k in ships.Values
      {
        var d :| d in ships - {c} && (ships - {c})[d] == k;
        assert ships[d] == k;
      }
    }
    if hit !in (ships - {c}).Values {
      var sunk' := sunk + [hit];
      forall i, j | 0 <= i < j < |sunk'|
        ensures sunk'[i] != sunk'[j]
      {
        if j == |sunk| {
          assert sunk'[i] in sunk;
        }
      }
    }
  }

  /**
   * An attack keeps the invariant: the sunken list of each side never holds a
   * kind twice, because a kind is appended only when its last cell is cleared.
   */
  lemma AttackInv(g: Game, id: PlayerId, posX: int, posY: int)
    requires Inv(g) && Attack(g, id, posX, posY).Ok?
    ensures Inv(Attack(g, id, posX, posY).value)
  {
    var s := g.state;
    var c := Cell(posX, posY);
    var p2side := s.p1 == Some(id);
    if c in Ships(s, p2side) {
      SunkAfterHit(Sunk(s, p2side), Ships(s, p2side), c);
    }
  }

  // ---------------------------------------------------------------------------
  // Joining and leaving.

  /** The two states agree on the live boards, the marker boards and the sunken lists. */
  predicate SamePlay(s: GameState, t: GameState) {
    && s.p1Board == t.p1Board && s.p2Board == t.p2Board
    && s.p1MarkerBoard == t.p1MarkerBoard && s.p2MarkerBoard == t.p2MarkerBoard
    && s.p1SunkenShips == t.p1SunkenShips && s.p2SunkenShips == t.p2SunkenShips
  }

  /**
   * Join admits exactly a new player while fewer than two are admitted: the
   * first takes the first seat and waits, the second takes the second seat and
   * starts the setup. The boards, the turn and the winner are untouched.
   */
  lemma JoinSeats(g: Game, id: PlayerId)
    requires Inv(g)
    ensures Join(g, id) == Err(PlayerAlreadyInGame) <==> id in g.players
    ensures Join(g, id) == Err(GameFull) <==> id !in g.players && |g.players| == 2
    ensures Join(g, id).Ok? ==>
      var t := Join(g, id).value.state;
      && Join(g, id).value.players == g.players + [id]
      && (|g.players| == 0 ==> t.p1 == Some(id) && t.p2 == g.state.p2 && t.internalState == GameWait && t.status == WaitingToStart)
      && (|g.players| == 1 ==> t.p1 == g.state.p1 && t.p2 == Some(id) && t.internalState == GameStart && t.status == InProgress)
      && SamePlay(g.state, t) && t.turnPlayer == g.state.turnPlayer && t.winner == g.state.winner
  {
  }

  /**
   * From a fresh game: the first player waits in the first seat, a second
   * player starts the setup, and then a seated player joining again or a third
   * player joining are refused.
   */
  lemma JoinScenario(a: PlayerId, b: PlayerId, c: PlayerId)
    requires a != b && c != a && c != b
    ensures var g1 := Join(Game([], InitialState()), a);
      && g1.Ok? && g1.value.state.p1 == Some(a) && g1.value.state.status == WaitingToStart
      && var g2 := Join(g1.value, b);
      && g2.Ok? && g2.value.state.p1 == Some(a) && g2.value.state.p2 == Some(b)
      && g2.value.state.internalState == GameStart && g2.value.state.status == InProgress
      && Join(g2.value, a) == Err(PlayerAlreadyInGame) && Join(g2.value, c) == Err(GameFull)
  {
  }

  /** Joining a fresh game and leaving it again restores the fresh game. */
  lemma JoinLeaveRoundTrip(id: PlayerId)
    ensures Join(Game([], InitialState()), id).Ok?
    ensures Leave(Join(Game([], InitialState()), id).value, id) == Ok(Game([], InitialState()))
  {
  }

  /** Only a seated player may leave. */
  lemma LeaveNotSeated(g: Game, id: PlayerId)
    ensures Leave(g, id).Err? <==> !Seated(g.state, id)
    ensures Leave(g, id).Err? ==> Leave(g, id).error == PlayerNotInGame
  {
  }

  /**
   * Leaving before the main phase frees the seat (the second player moving up
   * when the first leaves), returns to waiting, clears a started setup and
   * never names a winner.
   */
  lemma LeaveBeforeMain(g: Game, id: PlayerId)
    requires Inv(g) && Seated(g.state, id)
    requires g.state.internalState == GameWait || g.state.internalState == GameStart
    ensures Leave(g, id).Ok?
    ensures var g' := Leave(g, id).value; var s := g.state; var t := g'.state;
      && id !in g'.players
      && t.p1 == (if s.p1 == Some(id) then s.p2 else s.p1) && t.p2 == None
      && t.internalState == GameWait && t.status == WaitingToStart
      && t.winner == s.winner && t.turnPlayer == s.turnPlayer && SamePlay(s, t)
      && (s.internalState == GameStart ==> t.p1InitialBoard == map[] && t.p2InitialBoard == map[])
      && (s.internalState == GameWait ==> t.p1InitialBoard == s.p1InitialBoard && t.p2InitialBoard == s.p2InitialBoard)
  {
  }

  /**
   * Leaving in the main phase forfeits: the other seat wins and the game is
   * over, with the seats and the boards as they were.
   */
  lemma LeaveInMain(g: Game, id: PlayerId)
    requires Inv(g) && Seated(g.state, id) && g.state.internalState == GameMain
    ensures Leave(g, id).Ok?
    ensures var s := g.state; var t := Leave(g, id).value.state;
      && t.winner == (if s.p1 == Some(id) then s.p2 else s.p1) && t.winner != Some(id)
      && t.internalState == GameEnd && t.status == Over
      && t.p1 == s.p1 && t.p2 == s.p2 && SamePlay(s, t)
      && t.p1InitialBoard == s.p1InitialBoard && t.p2InitialBoard == s.p2InitialBoard
  {
  }

  /** Leaving a finished game only removes the player from the seat list. */
  lemma LeaveAfterEnd(g: Game, id: PlayerId)
    requires Seated(g.state, id) && g.state.internalState == GameEnd
    ensures Leave(g, id) == Ok(Game(Without(g.players, id), g.state))
  {
  }

  // ---------------------------------------------------------------------------
  // Attacks.

  /** The attack guards, each tried only after the previous ones passed. */
  lemma AttackGuards(g: Game, id: PlayerId, posX: int, posY: int)
    ensures var s := g.state; var r := Attack(g, id, posX, posY);
      && (r == Err(PlayerNotInGame) <==> !Seated(s, id))
      && (r == Err(GameNotInProgress) <==> Seated(s, id) && s.internalState != GameMain)
      && (r == Err(NotYourTurn) <==> Seated(s, id) && s.internalState == GameMain && s.turnPlayer != Some(id))
      && (r == Err(PositionOutOfRange) <==>
            Seated(s, id) && s.internalState == GameMain && s.turnPlayer == Some(id) && !InBoard(Cell(posX, posY)))
      && (r == Err(BoardPositionNotEmpty) <==>
            Seated(s, id) && s.internalState == GameMain && s.turnPlayer == Some(id) && InBoard(Cell(posX, posY))
            && Cell(posX, posY) in Markers(s, s.p1 == Some(id)))
      && (r.Ok? ==> r.value.players == g.players)
  {
  }

  /** A cell already marked on the defender's marker board can never be attacked again. */
  lemma ShotOnce(g: Game, id: PlayerId, posX: int, posY: int)
    requires Cell(posX, posY) in Markers(g.state, g.state.p1 == Some(id))
    ensures Attack(g, id, posX, posY).Err?
  {
  }

  /**
   * A shot changes only the targeted cell: the defender's marker board gains
   * Hit or Miss there (earlier marks stay), the defender's live board loses
   * that cell, and the attacker's side, the setup boards and the seats are
   * untouched.
   */
  lemma AttackTouchesTarget(g: Game, id: PlayerId, posX: int, posY: int)
    requires Inv(g) && Attack(g, id, posX, posY).Ok?
    ensures var s := g.state; var d := s.p1 == Some(id); var c := Cell(posX, posY);
      && c !in Markers(s, d)
      && Touches(s, Attack(g, id, posX, posY).value.state, d, c)
  {
    ResolveTouches(g.state, id, Cell(posX, posY));
  }

  /**
   * t differs from s on the side selected by d only at c: the marker board
   * gains Hit or Miss there and the live board loses c; the other side, the
   * setup boards and the seats are as they were.
   */
  predicate Touches(s: GameState, t: GameState, d: bool, c: Cell) {
    && Markers(t, d) == Markers(s, d)[c := if c in Ships(s, d) then Hit else Miss]
    && Ships(t, d) == Ships(s, d) - {c}
    && Markers(t, !d) == Markers(s, !d) && Ships(t, !d) == Ships(s, !d) && Sunk(t, !d) == Sunk(s, !d)
    && t.p1 == s.p1 && t.p2 == s.p2
    && t.p1InitialBoard == s.p1InitialBoard && t.p2InitialBoard == s.p2InitialBoard
  }

  lemma ResolveTouches(s: GameState, id: PlayerId, c: Cell)
    requires s.p1 != s.p2
    ensures Touches(s, Resolve(s, id, c), s.p1 == Some(id), c)
  {
    var d := s.p1 == Some(id);
    var ships := Ships(s, d);
    if c in ships {
      StruckTouches(s, id, c, ShipHasSunk(ships, c), NoShipsRemaining(ships, c));
    }
  }

  lemma StruckTouches(s: GameState, id: PlayerId, c: Cell, shipHasSunk: bool, noShipsRemaining: bool)
    requires s.p1 != s.p2 && c in Ships(s, s.p1 == Some(id))
    ensures Touches(s, Struck(s, id, c, shipHasSunk, noShipsRemaining), s.p1 == Some(id), c)
  {
  }

  /** A hit kind joins the defender's sunken list exactly when none of its cells is left. */
  lemma AttackSinks(g: Game, id: PlayerId, posX: int, posY: int)
    requires Inv(g) && Attack(g, id, posX, posY).Ok?
    ensures var s := g.state; var t := Attack(g, id, posX, posY).value.state;
      var d := s.p1 == Some(id); var c := Cell(posX, posY); var ships := Ships(s, d);
      Sunk(t, d) == if c in ships && ships[c] !in (ships - {c}).Values then Sunk(s, d) + [ships[c]] else Sunk(s, d)
  {
  }

  /**
   * A hit that clears the defender's last ship cell ends the game with the
   * attacker as winner and the turn unchanged; any other shot keeps the main
   * phase and passes the turn to the defender.
   */
  lemma AttackTurn(g: Game, id: PlayerId, posX: int, posY: int)
    requires Inv(g) && Attack(g, id, posX, posY).Ok?
    ensures var s := g.state; var t := Attack(g, id, posX, posY).value.state;
      var d := s.p1 == Some(id); var c := Cell(posX, posY); var ships := Ships(s, d);
      && (t.internalState == GameEnd <==> c in ships && ships - {c} == map[])
      && (t.internalState == GameEnd ==> t.winner == Some(id) && t.status == Over && t.turnPlayer == s.turnPlayer)
      && (t.internalState != GameEnd ==>
            t.internalState == GameMain && t.winner == s.winner
            && t.turnPlayer == Seat(s, d) && t.turnPlayer != Some(id))
  {
  }

  // ---------------------------------------------------------------------------
  // Setup.

  /** The setup guards, each tried only after the previous ones passed; an invalid board is refused with the validator's reason. */
  lemma SetupGuards(g: Game, id: PlayerId, board: ShipBoard)
    ensures var s := g.state; var r := Setup(g, id, board);
      var own := if s.p1 == Some(id) then s.p1InitialBoard else s.p2InitialBoard;
      && (r == Err(PlayerNotInGame) <==> !Seated(s, id))
      && (r == Err(NotYourTurn) <==> Seated(s, id) && s.internalState != GameWait && own != map[])
      && (r == Err(GameNotInProgress) <==>
            Seated(s, id) && (s.internalState == GameWait || (own == map[] && s.internalState != GameStart)))
      && (r.Ok? ==> Validate(board).Ok?)
      && (Seated(s, id) && s.internalState == GameStart && own == map[] && Validate(board).Err? ==>
            r == Err(InvalidSetup(Validate(board).error)))
  {
    SetupWithGuards(g, id, board, Validate(board));
  }

  lemma SetupWithGuards(g: Game, id: PlayerId, board: ShipBoard, verdict: Result<Fleet, SetupError>)
    ensures var s := g.state; var r := SetupWith(g, id, board, verdict);
      var own := if s.p1 == Some(id) then s.p1InitialBoard else s.p2InitialBoard;
      && (r == Err(PlayerNotInGame) <==> !Seated(s, id))
      && (r == Err(NotYourTurn) <==> Seated(s, id) && s.internalState != GameWait && own != map[])
      && (r == Err(GameNotInProgress) <==>
            Seated(s, id) && (s.internalState == GameWait || (own == map[] && s.internalState != GameStart)))
      && (r.Ok? ==> verdict.Ok?)
      && (Seated(s, id) && s.internalState == GameStart && own == map[] && verdict.Err? ==>
            r == Err(InvalidSetup(verdict.error)))
  {
  }

  /**
   * g' is g with board stored as id's setup board and nothing else changed,
   * except that the second board starts the main phase with the first seat to
   * move.
   */
  predicate Stored(g: Game, id: PlayerId, board: ShipBoard, g': Game) {
    var s := g.state; var t := g'.state;
    var other := if s.p1 == Some(id) then s.p2InitialBoard else s.p1InitialBoard;
    && s.internalState == GameStart
    && (if s.p1 == Some(id) then t.p1InitialBoard == board && t.p2InitialBoard == s.p2InitialBoard
        else t.p2InitialBoard == board && t.p1InitialBoard == s.p1InitialBoard)
    && g'.players == g.players && t.p1 == s.p1 && t.p2 == s.p2 && t.winner == s.winner && SamePlay(s, t)
    && (t.internalState == GameMain <==> other != map[])
    && (t.internalState == GameMain ==> t.turnPlayer == s.p1 && t.status == InProgress)
    && (t.internalState != GameMain ==> t.internalState == GameStart && t.turnPlayer == s.turnPlayer)
  }

  /** An accepted board is stored as the player's setup board, and nothing else changes but the phase. */
  lemma SetupStores(g: Game, id: PlayerId, board: ShipBoard)
    requires Setup(g, id, board).Ok?
    ensures Stored(g, id, board, Setup(g, id, board).value)
  {
    ValidNonEmpty(board);
    SetupWithStores(g, id, board, Validate(board));
  }

  lemma SetupWithStores(g: Game, id: PlayerId, board: ShipBoard, verdict: Result<Fleet, SetupError>)
    requires (verdict.Ok? ==> board != map[]) && SetupWith(g, id, board, verdict).Ok?
    ensures Stored(g, id, board, SetupWith(g, id, board, verdict).value)
  {
  }

  /** Submitting again is out of turn, in the setup phase and after it. */
  lemma SetupResubmission(g: Game, id: PlayerId, board: ShipBoard)
    requires Seated(g.state, id) && g.state.internalState != GameWait
    requires (if g.state.p1 == Some(id) then g.state.p1InitialBoard else g.state.p2InitialBoard) != map[]
    ensures Setup(g, id, board) == Err(NotYourTurn)
  {
    SetupWithGuards(g, id, board, Validate(board));
  }

  /**
   * With both seats taken and no board submitted, two valid boards lead to the
   * same main-phase game whichever player submits first.
   */
  lemma SetupEitherOrder(g: Game, a: PlayerId, b: PlayerId, boardA: ShipBoard, boardB: ShipBoard)
    requires g.state.internalState == GameStart && g.state.p1 == Some(a) && g.state.p2 == Some(b) && a != b
    requires g.state.p1InitialBoard == map[] && g.state.p2InitialBoard == map[]
    requires Validate(boardA).Ok? && Validate(boardB).Ok?
    ensures Setup(g, a, boardA).Ok? && Setup(Setup(g, a, boardA).value, b, boardB).Ok?
    ensures Setup(g, b, boardB).Ok? && Setup(Setup(g, b, boardB).value, a, boardA).Ok?
    ensures var g' := Setup(Setup(g, a, boardA).value, b, boardB).value;
      && g' == Setup(Setup(g, b, boardB).value, a, boardA).value
      && g'.state.internalState == GameMain && g'.state.turnPlayer == Some(a)
      && g'.state.p1InitialBoard == boardA && g'.state.p2InitialBoard == boardB
  {
    ValidNonEmpty(boardA);
    ValidNonEmpty(boardB);
    SetupWithEitherOrder(g, a, b, boardA, boardB, Validate(boardA), Validate(boardB));
  }

  lemma SetupWithEitherOrder(g: Game, a: PlayerId, b: PlayerId, boardA: ShipBoard, boardB: ShipBoard,
                             verdictA: Result<Fleet, SetupError>, verdictB: Result<Fleet, SetupError>)
    requires g.state.internalState == GameStart && g.state.p1 == Some(a) && g.state.p2 == Some(b) && a != b
    requires g.state.p1InitialBoard == map[] && g.state.p2InitialBoard == map[]
    requires verdictA.Ok? && verdictB.Ok? && boardA != map[] && boardB != map[]
    ensures SetupWith(g, a, boardA, verdictA).Ok? && SetupWith(SetupWith(g, a, boardA, verdictA).value, b, boardB, verdictB).Ok?
    ensures SetupWith(g, b, boardB, verdictB).Ok? && SetupWith(SetupWith(g, b, boardB, verdictB).value, a, boardA, verdictA).Ok?
    ensures var g' := SetupWith(SetupWith(g, a, boardA, verdictA).value, b, boardB, verdictB).value;
      && g' == SetupWith(SetupWith(g, b, boardB, verdictB).value, a, boardA, verdictA).value
      && g'.state.internalState == GameMain && g'.state.turnPlayer == Some(a)
      && g'.state.p1InitialBoard == boardA && g'.state.p2InitialBoard == boardB
  {
  }
}
