/**
 * The BattleShip game object. Its handlers update the seat list and the state
 * record in place, in the order the game performs the steps, and each is
 * proved to produce exactly the game the matching transition of GameEngine
 * describes (or, on an error, to leave the game as it was).
 */
module GameObject {
  import opened BattleShipTypes
  import opened BoardValidator
  import opened GameEngine

  /**
   * A handler's outcome and the game after it agree with a transition: on
   * success the game becomes the transition's result, on an error the same
   * error is raised and the game is unchanged.
   */
  predicate Realizes(r: Outcome<GameError>, spec: Result<Game, GameError>, before: Game, after: Game) {
    match spec
    case Ok(g) => r == Pass && after == g
    case Err(e) => r == Fail(e) && after == before
  }

  /**
   * The scan after a hit: walks the cleared defender board row by row, stops
   * at the first remaining cell of the hit kind, and otherwise notes whether
   * any ship cell is left.
   */
  method ScanAfterHit(board: ShipBoard, hit: ShipKind) returns (shipHasSunk: bool, noShipsRemaining: bool)
    requires KeysInBoard(board)
    ensures shipHasSunk <==> hit !in board.Values
    ensures noShipsRemaining <==> board == map[]
  {
    shipHasSunk := true;
    noShipsRemaining := true;
    var x := 0;
    while x < 10
      invariant 0 <= x <= 10
      invariant shipHasSunk ==> forall c :: c in board && c.x < x ==> board[c] != hit
      invariant shipHasSunk ==> (noShipsRemaining <==> forall c :: c in board ==> c.x >= x)
      invariant !shipHasSunk ==> hit in board.Values && !noShipsRemaining
    {
      if !shipHasSunk {
        break;
      }
      var y := 0;
      while y < 10
        invariant 0 <= y <= 10
        invariant shipHasSunk
        invariant forall c :: c in board && (c.x < x || (c.x == x && c.y < y)) ==> board[c] != hit
        invariant noShipsRemaining <==> forall c :: c in board ==> c.x > x || (c.x == x && c.y >= y)
      {
        var cell := Cell(x, y);
        if cell in board && board[cell] == hit {
          assert board[cell] in board.Values;
          shipHasSunk := false;
          noShipsRemaining := false;
          break;
        } else if cell in board {
          noShipsRemaining := false;
        }
        y := y + 1;
      }
      x := x + 1;
    }
    if shipHasSunk {
      assert forall c :: c in board ==> board[c] != hit;
    }
  }

  /**
   * A BattleShip game: the players the base class has admitted, in joining
   * order, and the state record. Both are updated in place.
   */
  class BattleShipGame {
    const id: GameId
    var players: seq<PlayerId>
    var state: GameState

    /** The game as a value. */
    function Value(): Game
      reads this
    {
      Game(players, state)
    }

    predicate Valid()
      reads this
    {
      Inv(Value())
    }

    /** A fresh game: no players, both seats free, empty boards, waiting to start. */
    constructor(id: GameId)
      ensures this.id == id && Value() == Game([], InitialState()) && Valid()
    {
      this.id := id;
      players := [];
      state := InitialState();
      InitialInv();
    }

    /** Whether pid is among the admitted players. */
    method PlayerInGame(pid: PlayerId) returns (b: bool)
      ensures b <==> pid in players
    {
      var i := 0;
      while i < |players|
        invariant 0 <= i <= |players|
        invariant pid !in players[..i]
      {
        if players[i] == pid {
          return true;
        }
        i := i + 1;
      }
      assert players[..i] == players;
      return false;
    }

    /** Sets the reported status from the internal phase; nothing else changes. */
    method UpdateExternalState()
      modifies this
      ensures players == old(players)
      ensures state == old(state).(status := ExternalStatus(old(state).internalState))
    {
      match state.internalState
      case GameWait => state := state.(status := WaitingToStart);
      case GameStart => state := state.(status := InProgress);
      case GameMain => state := state.(status := InProgress);
      case GameEnd => state := state.(status := Over);
    }

    /** Admits a player, seating the first in p1 and the second in p2. */
    method Join(pid: PlayerId) returns (r: Outcome<GameError>)
      requires Valid()
      modifies this
      ensures Valid()
      ensures Realizes(r, GameEngine.Join(old(Value()), pid), old(Value()), Value())
    {
      var inGame := PlayerInGame(pid);
      if inGame {
        return Fail(PlayerAlreadyInGame);
      } else if |players| == 2 {
        return Fail(GameFull);
      }
      if |players| == 0 {
        state := state.(p1 := Some(pid), internalState := GameWait);
        UpdateExternalState();
      } else {
        state := state.(p2 := Some(pid), internalState := GameStart);
        UpdateExternalState();
      }
      players := players + [pid];
      JoinInv(old(Value()), pid);
      r := Pass;
    }

    /** Removes a seated player, resetting the setup or forfeiting as the phase requires. */
    method Leave(pid: PlayerId) returns (r: Outcome<GameError>)
      requires Valid()
      modifies this
      ensures Valid()
      ensures Realizes(r, GameEngine.Leave(old(Value()), pid), old(Value()), Value())
    {
      if state.p1 != Some(pid) && state.p2 != Some(pid) {
        return Fail(PlayerNotInGame);
      }
      Depart(pid);
      players := Without(players, pid);
      LeaveInv(old(Value()), pid);
      r := Pass;
    }

    /** The state change of a leave, by phase; the seat list is left to the caller. */
    method Depart(pid: PlayerId)
      requires state.p1 == Some(pid) || state.p2 == Some(pid)
      modifies this
      ensures players == old(players)
      ensures state == Departed(old(state), pid)
    {
      if state.internalState == GameWait || state.internalState == GameStart {
        FreeSeat(pid);
        if state.internalState == GameStart {
          state := state.(p1InitialBoard := map[], p2InitialBoard := map[], internalState := GameWait);
          UpdateExternalState();
        }
      } else if state.internalState == GameMain {
        state := state.(winner := if state.p1 == Some(pid) then state.p2 else state.p1, internalState := GameEnd);
        UpdateExternalState();
      }
    }

    /** Frees the seat of a leaving player; the second player moves up when the first leaves. */
    method FreeSeat(pid: PlayerId)
      requires state.p1 == Some(pid) || state.p2 == Some(pid)
      modifies this
      ensures players == old(players)
      ensures state == Vacate(old(state), pid)
    {
      if state.p1 == Some(pid) {
        state := state.(p1 := state.p2, p2 := None);
      } else if state.p2 == Some(pid) {
        state := state.(p2 := None);
      }
    }

    /** Stores a player's setup board if it is their turn to submit and the board is valid. */
    method ApplySetupMove(pid: PlayerId, board: ShipBoard) returns (r: Outcome<GameError>)
      requires Valid()
      modifies this
      ensures Valid()
      ensures Realizes(r, Setup(old(Value()), pid, board), old(Value()), Value())
    {
      var verdict := Validate(board);
      ValidNonEmpty(board);
      r := Submit(pid, board, verdict);
    }

    /** The setup handler once the validator has given its verdict on the board. */
    method Submit(pid: PlayerId, board: ShipBoard, verdict: Result<Fleet, SetupError>) returns (r: Outcome<GameError>)
      requires Valid() && (verdict.Ok? ==> board != map[])
      modifies this
      ensures Valid()
      ensures Realizes(r, SetupWith(old(Value()), pid, board, verdict), old(Value()), Value())
    {
      if state.p1 != Some(pid) && state.p2 != Some(pid) {
        return Fail(PlayerNotInGame);
      } else if state.internalState == GameWait {
        return Fail(GameNotInProgress);
      }
      var own := if state.p1 == Some(pid) then state.p1InitialBoard else state.p2InitialBoard;
      if own != map[] {
        return Fail(NotYourTurn);
      } else if state.internalState != GameStart {
        return Fail(GameNotInProgress);
      } else if verdict.Err? {
        return Fail(InvalidSetup(verdict.error));
      }
      if state.p1 == Some(pid) {
        state := state.(p1InitialBoard := board);
      } else {
        state := state.(p2InitialBoard := board);
      }
      if state.p1InitialBoard != map[] && state.p2InitialBoard != map[] {
        state := state.(internalState := GameMain, turnPlayer := state.p1);
        UpdateExternalState();
      }
      SetupWithInv(old(Value()), pid, board, verdict);
      r := Pass;
    }

    /** Fires a shot at (posX, posY) for the player whose turn it is. */
    method ApplyAttackMove(pid: PlayerId, posX: int, posY: int) returns (r: Outcome<GameError>)
      requires Valid()
      modifies this
      ensures Valid()
      ensures Realizes(r, Attack(old(Value()), pid, posX, posY), old(Value()), Value())
    {
      if state.p1 != Some(pid) && state.p2 != Some(pid) {
        return Fail(PlayerNotInGame);
      } else if state.internalState != GameMain {
        return Fail(GameNotInProgress);
      } else if state.turnPlayer != Some(pid) {
        return Fail(NotYourTurn);
      } else if !(0 <= posX <= 9) || !(0 <= posY <= 9) {
        return Fail(PositionOutOfRange);
      }
      var c := Cell(posX, posY);
      var d := state.p1 == Some(pid);
      if c in Markers(state, d) {
        return Fail(BoardPositionNotEmpty);
      }
      var ships := Ships(state, d);
      var opponent := Seat(state, d);
      if c !in ships {
        if d {
          state := state.(p2MarkerBoard := state.p2MarkerBoard[c := Miss]);
        } else {
          state := state.(p1MarkerBoard := state.p1MarkerBoard[c := Miss]);
        }
        state := state.(turnPlayer := opponent);
      } else {
        var hit := ships[c];
        var rest := ships - {c};
        if d {
          state := state.(p2MarkerBoard := state.p2MarkerBoard[c := Hit], p2Board := rest);
        } else {
          state := state.(p1MarkerBoard := state.p1MarkerBoard[c := Hit], p1Board := rest);
        }
        var shipHasSunk, noShipsRemaining := ScanAfterHit(rest, hit);
        if shipHasSunk {
          if opponent == state.p1 {
            state := state.(p1SunkenShips := state.p1SunkenShips + [hit]);
          } else {
            state := state.(p2SunkenShips := state.p2SunkenShips + [hit]);
          }
        }
        if noShipsRemaining {
          state := state.(winner := Some(pid), internalState := GameEnd);
          UpdateExternalState();
        } else {
          state := state.(turnPlayer := opponent);
        }
      }
      AttackInv(old(Value()), pid, posX, posY);
      r := Pass;
    }
  
    /** Hands a move to the setup or the attack handler according to its kind. */
    method ApplyMove(m: GameMove) returns (r: Outcome<GameError>)
      requires Valid()
      modifies this
      ensures Valid()
      ensures Realizes(r, GameEngine.ApplyMove(old(Value()), m), old(Value()), Value())
    {
      if m.move.SetupMove? {
        r := ApplySetupMove(m.playerID, m.move.board);
      } else {
        r := ApplyAttackMove(m.playerID, m.move.posX, m.move.posY);
      }
    }
  }
}
