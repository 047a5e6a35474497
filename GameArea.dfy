/**
 * The BattleShip area of a town: it holds at most one active game and the
 * list of games that were finished and put aside, routes the players'
 * commands to the game, and announces a change of the area after every
 * command that succeeded.
 */
module GameArea {
  import opened BattleShipTypes
  import opened GameEngine
  import opened GameObject

  /** A finished game put aside by the area: its id and its final state. */
  datatype ArchivedGame = ArchivedGame(id: GameId, state: GameState)

  /** The result of a finished game: the number of ships each player sank. */
  datatype GameResult = GameResult(gameID: GameId, scores: map<PlayerId, nat>)

  /** One entry of the history the area reports. */
  datatype GameInstance = GameInstance(state: GameState, id: GameId, players: seq<PlayerId>, result: GameResult)

  /** A seat counts as taken when it holds a non-empty id. */
  predicate Taken(seat: Option<PlayerId>) {
    seat.Some? && seat.value != ""
  }

  /**
   * The history entry of one archived game: none unless both seats are taken;
   * otherwise each player is scored with the number of the opponent's ships
   * that were sunk (the second seat's score wins if both seats hold the same id).
   */
  function Entry(a: ArchivedGame): (r: seq<GameInstance>)
    ensures |r| <= 1
    ensures r != [] <==> Taken(a.state.p1) && Taken(a.state.p2)
    ensures r != [] ==>
      var p1 := a.state.p1.value; var p2 := a.state.p2.value;
      && r[0].state == a.state && r[0].id == a.id && r[0].result.gameID == a.id
      && r[0].players == [p1, p2]
      && r[0].result.scores.Keys == {p1, p2}
      && r[0].result.scores[p2] == |a.state.p1SunkenShips|
      && (p1 != p2 ==> r[0].result.scores[p1] == |a.state.p2SunkenShips|)
  {
    var s := a.state;
    if Taken(s.p1) && Taken(s.p2) then
      var p1 := s.p1.value;
      var p2 := s.p2.value;
      [GameInstance(s, a.id, [p1, p2], GameResult(a.id, map[p1 := |s.p2SunkenShips|][p2 := |s.p1SunkenShips|]))]
    else []
  }

  /** The history the area reports: the entries of the archived games, in archive order. */
  function HistoryRecords(h: seq<ArchivedGame>): (r: seq<GameInstance>)
    ensures |r| <= |h|
    ensures forall i :: 0 <= i < |r| ==> |r[i].players| == 2 && r[i].result.gameID == r[i].id
  {
    if h == [] then [] else HistoryRecords(h[..|h| - 1]) + Entry(h[|h| - 1])
  }

  /** The history of a concatenation is the concatenation of the histories. */
  lemma {:induction false} HistoryRecordsConcat(h1: seq<ArchivedGame>, h2: seq<ArchivedGame>)
    ensures HistoryRecords(h1 + h2) == HistoryRecords(h1) + HistoryRecords(h2)
    decreases |h2|
  {
    if h2 == [] {
      assert h1 + h2 == h1;
    } else {
      var init := h2[..|h2| - 1];
      var last := h2[|h2| - 1];
      assert h2 == init + [last];
      assert (h1 + h2)[..|h1 + h2| - 1] == h1 + init;
      HistoryRecordsConcat(h1, init);
    }
  }

  /**
   * Every reported entry comes from an archived game with both seats taken,
   * every such game is reported, and there are never more entries than games.
   */
  lemma {:induction false} HistoryRecordsMembers(h: seq<ArchivedGame>)
    ensures |HistoryRecords(h)| <= |h|
    ensures forall e :: e in HistoryRecords(h) <==> exists a :: a in h && Entry(a) == [e]
  {
    if h != [] {
      var init := h[..|h| - 1];
      var last := h[|h| - 1];
      assert h == init + [last];
      HistoryRecordsMembers(init);
      forall e
        ensures e in HistoryRecords(h) <==> exists a :: a in h && Entry(a) == [e]
      {
        if e in HistoryRecords(init) {
          var a :| a in init && Entry(a) == [e];
          assert a in h;
        }
        if e in Entry(last) {
          assert Entry(last) == [e];
        }
        if exists a :: a in h && Entry(a) == [e] {
          var a :| a in h && Entry(a) == [e];
          if a == last {
            assert e in Entry(last);
          } else {
            assert a in init;
          }
        }
      }
    }
  }

  /** Archiving a game only appends to the reported history: earlier entries stay, in order. */
  lemma HistoryGrows(h: seq<ArchivedGame>, a: ArchivedGame)
    ensures HistoryRecords(h + [a]) == HistoryRecords(h) + Entry(a)
    ensures HistoryRecords(h) <= HistoryRecords(h + [a])
  {
    HistoryRecordsConcat(h, [a]);
    assert HistoryRecords([a]) == HistoryRecords([]) + Entry(a);
  }

  /** The commands a player can send to the area. */
  datatype Command =
    | JoinGame
    | LeaveGame(gameID: GameId)
    | GameMoveCommand(gameID: GameId, move: BattleShipMove)
    | NewGame(prevgameID: GameId)
    | GetHistory
    | OtherCommand(kind: string)

  /** What a successful command returns. */
  datatype Reply = Joined(gameID: GameId) | NoReply | History(gameHistory: seq<GameInstance>)

  /** The reply to a command that a game transition decides: no reply on success, its error otherwise. */
  predicate Answers(r: Result<Reply, GameError>, spec: Result<Game, GameError>, before: Game, after: Game) {
    match spec
    case Ok(g) => r == Ok(NoReply) && after == g
    case Err(e) => r == Err(e) && after == before
  }

  /**
   * The area. `emitted` counts the area-changed announcements, which are sent
   * to the town's clients.
   */
  class BattleShipGameArea {
    var game: BattleShipGame?
    var gameHistory: seq<ArchivedGame>
    ghost var emitted: nat

    predicate Valid()
      reads this, game
    {
      game != null ==> game.Valid()
    }

    /** A fresh area: no game, an empty history, nothing announced. */
    constructor()
      ensures game == null && gameHistory == [] && emitted == 0 && Valid()
    {
      game := null;
      gameHistory := [];
      emitted := 0;
    }

    /** Announces that the area changed; nothing else changes. */
    method EmitAreaChanged()
      modifies this
      ensures game == old(game) && gameHistory == old(gameHistory)
      ensures emitted == old(emitted) + 1
    {
      emitted := emitted + 1;
    }

    /**
     * Creates a game (with the id newID) when there is none, then joins the
     * player to it. The game stays even if the join is refused; the area
     * announces the change and returns the game's id only on success.
     */
    method HandleJoinCommand(player: PlayerId, newID: GameId) returns (r: Result<GameId, GameError>)
      requires Valid()
      modifies this, game
      ensures Valid() && game != null && gameHistory == old(gameHistory)
      ensures old(game) != null ==> game == old(game)
      ensures old(game) == null ==> fresh(game) && game.id == newID
      ensures var before := if old(game) == null then Game([], InitialState()) else old(game.Value());
        match GameEngine.Join(before, player)
        case Ok(g) => r == Ok(game.id) && game.Value() == g && emitted == old(emitted) + 1
        case Err(e) => r == Err(e) && game.Value() == before && emitted == old(emitted)
    {
      if game == null {
        game := new BattleShipGame(newID);
      }
      var outcome := game.Join(player);
      if outcome.Fail? {
        return Err(outcome.error);
      }
      EmitAreaChanged();
      r := Ok(game.id);
    }

    /** Removes the player from the active game with the given id. */
    method HandleLeaveCommand(gameID: GameId, player: PlayerId) returns (r: Outcome<GameError>)
      requires Valid()
      modifies this, game
      ensures Valid() && game == old(game) && gameHistory == old(gameHistory)
      ensures old(game) == null ==> r == Fail(GameNotInProgress) && emitted == old(emitted)
      ensures old(game) != null && old(game.id) != gameID ==>
        r == Fail(GameIdMismatch) && game.Value() == old(game.Value()) && emitted == old(emitted)
      ensures old(game) != null && old(game.id) == gameID ==>
        && Realizes(r, GameEngine.Leave(old(game.Value()), player), old(game.Value()), game.Value())
        && emitted == old(emitted) + (if r == Pass then 1 else 0)
    {
      if game == null {
        return Fail(GameNotInProgress);
      }
      if game.id != gameID {
        return Fail(GameIdMismatch);
      }
      r := game.Leave(player);
      if r.Fail? {
        return;
      }
      EmitAreaChanged();
    }

    /** Hands the player's move, with the command's game id, to the active game with that id. */
    method HandleGameMoveCommand(gameID: GameId, player: PlayerId, move: BattleShipMove) returns (r: Outcome<GameError>)
      requires Valid()
      modifies this, game
      ensures Valid() && game == old(game) && gameHistory == old(gameHistory)
      ensures old(game) == null ==> r == Fail(GameNotInProgress) && emitted == old(emitted)
      ensures old(game) != null && old(game.id) != gameID ==>
        r == Fail(GameIdMismatch) && game.Value() == old(game.Value()) && emitted == old(emitted)
      ensures old(game) != null && old(game.id) == gameID ==>
        && Realizes(r, GameEngine.ApplyMove(old(game.Value()), GameMove(gameID, player, move)), old(game.Value()), game.Value())
        && emitted == old(emitted) + (if r == Pass then 1 else 0)
    {
      if game == null {
        return Fail(GameNotInProgress);
      }
      if game.id != gameID {
        return Fail(GameIdMismatch);
      }
      ghost var before := game.Value();
      r := game.ApplyMove(GameMove(gameID, player, move));
      assert Realizes(r, GameEngine.ApplyMove(before, GameMove(gameID, player, move)), before, game.Value());
      if r.Fail? {
        return;
      }
      EmitAreaChanged();
    }

    /**
     * Puts a finished game aside so that a new one can be created: the game
     * joins the history and the area has no game. A game that is not over is
     * left alone, silently.
     */
    method HandleNewGameCommand(prevgameID: GameId) returns (r: Outcome<GameError>)
      requires Valid()
      modifies this
      ensures Valid()
      ensures old(game) == null ==> r == Fail(GameNotInProgress) && unchanged(this)
      ensures old(game) != null && old(game.id) != prevgameID ==> r == Fail(GameIdMismatch) && unchanged(this)
      ensures old(game) != null && old(game.id) == prevgameID ==> r == Pass
      ensures old(game) != null && old(game.id) == prevgameID && old(game.state.status) == Over ==>
        && game == null
        && gameHistory == old(gameHistory) + [ArchivedGame(old(game.id), old(game.state))]
        && emitted == old(emitted) + 1
      ensures old(game) != null && old(game.id) == prevgameID && old(game.state.status) != Over ==> unchanged(this)
    {
      if game == null {
        return Fail(GameNotInProgress);
      }
      if game.id != prevgameID {
        return Fail(GameIdMismatch);
      }
      if game.state.status == Over {
        gameHistory := gameHistory + [ArchivedGame(game.id, game.state)];
        game := null;
        EmitAreaChanged();
      }
      r := Pass;
    }

    /** The reported history, built entry by entry from the archived games. */
    method HandleGetHistoryCommand() returns (records: seq<GameInstance>)
      ensures records == HistoryRecords(gameHistory)
    {
      records := [];
      var i := 0;
      while i < |gameHistory|
        invariant 0 <= i <= |gameHistory|
        invariant records == HistoryRecords(gameHistory[..i])
      {
        var s := gameHistory[i].state;
        if Taken(s.p1) && Taken(s.p2) {
          var p1 := s.p1.value;
          var p2 := s.p2.value;
          records := records + [GameInstance(s, gameHistory[i].id, [p1, p2],
                                             GameResult(gameHistory[i].id, map[p1 := |s.p2SunkenShips|][p2 := |s.p1SunkenShips|]))];
        }
        assert gameHistory[..i + 1][..i] == gameHistory[..i];
        i := i + 1;
      }
      assert gameHistory[..i] == gameHistory;
    }

    /**
     * Routes a command to its handler; an unknown kind of command is refused.
     * newID is the id a join gives the game it has to create.
     */
    method HandleCommand(command: Command, player: PlayerId, newID: GameId) returns (r: Result<Reply, GameError>)
      requires Valid()
      modifies this, game
      ensures Valid()
      ensures command.OtherCommand? ==> r == Err(InvalidCommand) && unchanged(this) && emitted == old(emitted)
      ensures command.GetHistory? ==> r == Ok(History(HistoryRecords(gameHistory))) && unchanged(this)
      ensures r.Err? && !command.JoinGame? ==> emitted == old(emitted) && gameHistory == old(gameHistory)
      ensures r.Err? && (command.LeaveGame? || command.GameMoveCommand? || command.NewGame?) ==>
        game == old(game) && (game != null ==> game.Value() == old(game.Value()))
      // A join creates the game when there is none and answers with the game's id on success.
      ensures command.JoinGame? ==>
        && game != null && gameHistory == old(gameHistory)
        && (old(game) != null ==> game == old(game))
        && (old(game) == null ==> fresh(game) && game.id == newID)
        && var before := if old(game) == null then Game([], InitialState()) else old(game.Value());
           match GameEngine.Join(before, player)
           case Ok(g) => r == Ok(Joined(game.id)) && game.Value() == g && emitted == old(emitted) + 1
           case Err(e) => r == Err(e) && game.Value() == before && emitted == old(emitted)
      // Leave and move: the two guards, then the game's own transition, announced on success.
      ensures command.LeaveGame? || command.GameMoveCommand? ==>
        && game == old(game) && gameHistory == old(gameHistory)
        && (old(game) == null ==> r == Err(GameNotInProgress) && emitted == old(emitted))
        && (old(game) != null && old(game.id) != command.gameID ==>
              r == Err(GameIdMismatch) && game.Value() == old(game.Value()) && emitted == old(emitted))
        && (old(game) != null && old(game.id) == command.gameID ==> emitted == old(emitted) + (if r.Ok? then 1 else 0))
      ensures command.LeaveGame? && old(game) != null && old(game.id) == command.gameID ==>
        Answers(r, GameEngine.Leave(old(game.Value()), player), old(game.Value()), game.Value())
      ensures command.GameMoveCommand? && old(game) != null && old(game.id) == command.gameID ==>
        Answers(r, GameEngine.ApplyMove(old(game.Value()), GameMove(command.gameID, player, command.move)),
                old(game.Value()), game.Value())
      // A new game: the two guards; a finished game is archived and announced, any other is left alone.
      ensures command.NewGame? ==>
        && (old(game) == null ==> r == Err(GameNotInProgress) && unchanged(this))
        && (old(game) != null && old(game.id) != command.prevgameID ==> r == Err(GameIdMismatch) && unchanged(this))
        && (old(game) != null && old(game.id) == command.prevgameID ==> r == Ok(NoReply))
        && (old(game) != null && old(game.id) == command.prevgameID && old(game.state.status) == Over ==>
              && game == null
              && gameHistory == old(gameHistory) + [ArchivedGame(old(game.id), old(game.state))]
              && emitted == old(emitted) + 1)
        && (old(game) != null && old(game.id) == command.prevgameID && old(game.state.status) != Over ==> unchanged(this))
    {
      match command
      case JoinGame =>
        var joined := HandleJoinCommand(player, newID);
        r := if joined.Ok? then Ok(Joined(joined.value)) else Err(joined.error);
      case LeaveGame(gameID) =>
        var outcome := HandleLeaveCommand(gameID, player);
        r := if outcome == Pass then Ok(NoReply) else Err(outcome.error);
      case GameMoveCommand(gameID, move) =>
        var outcome := HandleGameMoveCommand(gameID, player, move);
        r := if outcome == Pass then Ok(NoReply) else Err(outcome.error);
      case NewGame(prevgameID) =>
        var outcome := HandleNewGameCommand(prevgameID);
        r := if outcome == Pass then Ok(NoReply) else Err(outcome.error);
      case GetHistory =>
        var records := HandleGetHistoryCommand();
        r := Ok(History(records));
      case OtherCommand(_) =>
        r := Err(InvalidCommand);
    }
  }
}
