# BattleShip for Covey.Town: a verified model of the game engine, the area router and the setup board

This project models the three parts of the BattleShip game of Covey.Town that hold its logic:

- **The game engine** (`BattleShipGame`). It is a two-seat state machine. Its internal phase is one of
  GAME_WAIT, GAME_START, GAME_MAIN and GAME_END, and the reported status is derived from that phase.
  Players join, leave, submit a setup board and fire shots. A shot updates the defender's marker board,
  the defender's live ship board, the sunken-ship lists, the turn and the winner.
- **The area** (`BattleShipGameArea`). It holds at most one active game and a list of finished games.
  It checks a command against the active game and its id, routes the command, and announces an
  area change after every command that succeeded. It also reports the history with a score per player.
- **The setup board** (`BattleShipSetupBoard`). Five pieces lie on a field of columns -3..12 and rows 0..9.
  A piece is dragged by the cell it was grabbed at and rotated about a clicked cell. Either move is made
  only when there is room for it. After each move the playing area (columns 0..9) is handed on as a board.

Modules, one per concern:

- `BattleShipTypes.dfy`: cells, ship kinds and lengths, boards as maps from cells (an absent key is an
  empty cell), and the error datatypes.
- `BoardValidator.dfy`: the setup-board validator as a pure function, `Validate`. It is proved sound and
  complete against a declarative description of a legal layout (`Describes`, `Complete`).
- `GameEngine.dfy`: the game as a value, `Game(players, state)`. Each transition (`Join`, `Leave`,
  `Setup`, `Attack`, `ApplyMove`) is a pure function returning `Ok(game)` or `Err(error)`. The
  invariant `Inv` is proved preserved, and the promised behaviours are proved as lemmas.
- `GameObject.dfy`: the class `BattleShipGame`. Its methods update the seat list and the state record in
  place, as the source does. Each handler is proved to produce exactly the game the matching transition
  describes, or, on an error, to raise that error and leave the game unchanged (`Realizes`). The nested
  scan after a hit is a method with loop invariants.
- `GameArea.dfy`: the class `BattleShipGameArea`, with a ghost counter of area-changed announcements.
  The history report is a loop proved equal to the projection `HistoryRecords`.
- `SetupBoard.dfy`: the pieces as values in a sequence, with the geometry (`Covers`, `Apart`, `SpaceFor`,
  `WellLaidOut`) and the board projection `Grid`. The class `BattleShipSetupBoard` has the handlers
  `TargetedShip`, `ExistsSpaceForMove`, `GenerateModifiedBoard`, `ProcessCellDrag`,
  `ProcessCellRotate` and `ProcessMouseEvent`. Each handler is proved against a function of the old state
  (`AfterDrag`, `AfterRotate`, `AfterMouse`), and these are proved to keep the pieces in the field and
  pairwise apart.

The game's setup handler `_applySetupMove` and its move dispatcher `applyMove` are stubs in the source
that only throw. Their behaviour is modelled from their doc-comments and from the setup tests in
`townService/src/town/games/BattleShipGame.test.ts`:

- the error kinds Duplicate, Incomplete, NotEnoughSpace and Missing;
- the order in which missing pieces are listed;
- the refusal of a second submission;
- the move to GAME_MAIN once both boards are in.

The validator reads a board with the first index as `x`. It finds each piece at its first cell in
row-major order and reads the direction off the neighbouring cell, first along `x`, then along `y`.

## Model

| member | source | states |
|---|---|---|
| BattleShipTypes.Length | frontend/src/components/Town/interactables/BattleShip/BattleShipSetupBoard.tsx:135-148 | Every piece is 2 to 5 cells long, and the length names the kind: 2 exactly for the Destroyer, 3 exactly for the Submarine and the Cruiser, 4 exactly for the Battleship, 5 exactly for the Carrier. |
| BattleShipTypes.Rank | townService/src/lib/InvalidParametersError.ts:17-21 | The declaration order of the pieces: each kind sits at its own rank in the declared list. |
| GameEngine.ExternalStatus | townService/src/town/games/BattleShipGame.ts:185-201 | The reported status is WAITING_TO_START exactly in GAME_WAIT and OVER exactly in GAME_END; otherwise IN_PROGRESS. |
| GameEngine.InitialInv | townService/src/town/games/BattleShipGame.ts:19-35 | A fresh game satisfies the game invariant. |
| GameEngine.Join | townService/src/town/games/BattleShipGame.ts:50-65 | A join is refused exactly when the player is already in the game or both seats are taken, with PLAYER_ALREADY_IN_GAME taking precedence over GAME_FULL. Otherwise the player is appended to the seat list and holds a seat, and the status is the projection of the new phase. |
| GameEngine.JoinInv | townService/src/town/games/BattleShipGame.ts:50-65 | A successful join keeps the invariant, including status being the projection of the phase. |
| GameEngine.JoinSeats | townService/src/town/games/BattleShipGame.ts:50-65 | A seated player re-joining gets PLAYER_ALREADY_IN_GAME, and a third player gets GAME_FULL, each if and only if. The first join takes p1 and waits; the second takes p2 and starts the setup. Boards, turn and winner are untouched. |
| GameEngine.JoinScenario | townService/src/town/games/BattleShipGame.test.ts:26-67 | From a fresh game: the first player waits as p1, the second starts the setup as p2, then re-joining and a third player are refused. |
| GameEngine.JoinLeaveRoundTrip | townService/src/town/games/BattleShipGame.ts:50-113 | Joining a fresh game and leaving it again gives back the fresh game. |
| GameEngine.LeaveInv | townService/src/town/games/BattleShipGame.ts:85-113 | A successful leave keeps the invariant. |
| GameEngine.Leave | townService/src/town/games/BattleShipGame.ts:85-87 | A leave fails exactly when the player holds neither seat, and then with PLAYER_NOT_IN_GAME. On success the seat list holds exactly the other players. |
| GameEngine.Vacate | townService/src/town/games/BattleShipGame.ts:88-101 | Only the seats change, and the second seat is free afterwards. Every other seated player keeps a seat. With two different seat holders the leaving player holds no seat afterwards. |
| GameEngine.Departed | townService/src/town/games/BattleShipGame.ts:88-112 | Leaving before the main phase returns the game to GAME_WAIT; leaving in the main phase or after it leaves the game in GAME_END. The status stays the projection of the phase. Marker boards, live boards and sunken lists are kept. In the main phase the leaving player never becomes the winner. |
| GameEngine.LeaveNotSeated | townService/src/town/games/BattleShipGame.ts:86-87 | Leave fails exactly when the player holds neither seat, and then with PLAYER_NOT_IN_GAME. |
| GameEngine.LeaveBeforeMain | townService/src/town/games/BattleShipGame.ts:88-107 | Before the main phase the seat is freed (p2 moves up when p1 leaves), the game waits again, a started setup has both initial boards cleared, and the winner is not set. |
| GameEngine.LeaveInMain | townService/src/town/games/BattleShipGame.ts:108-112 | In the main phase the other seat wins and the game is over; the seats and the boards are kept. |
| GameEngine.LeaveAfterEnd | townService/src/town/games/BattleShipGame.ts:85-113 | Leaving a finished game only drops the player from the seat list. |
| GameEngine.AttackGuards | townService/src/town/games/BattleShipGame.ts:135-143 | Each attack error occurs exactly when its guard fails and all earlier guards passed, in the order: not seated, not main phase, not your turn, out of range, cell already marked. A success keeps the seat list. |
| GameEngine.Attack | townService/src/town/games/BattleShipGame.ts:134-176 | An attack succeeds exactly when the attacker is seated, the game is in the main phase, it is the attacker's turn, both coordinates are in 0..9 and the cell is not yet marked. A successful attack keeps the seat list and leaves the target cell marked. |
| GameEngine.Resolve | townService/src/town/games/BattleShipGame.ts:144-175 | After a shot the target cell is marked. A miss passes the turn to the defender and keeps phase and winner. A hit that clears the defender's last ship cell makes the attacker the winner and ends the game. |
| GameEngine.ResolveTouches | townService/src/town/games/BattleShipGame.ts:141-175 | A shot changes the defender's marker board only at the target, to H on a ship cell and M otherwise. The defender's live board loses only that cell. The attacker's boards and sunken list, the seats and the initial boards are unchanged. |
| GameEngine.Struck | townService/src/town/games/BattleShipGame.ts:153-175 | After a hit the target cell is marked. With no ship cell left the attacker wins and the game is over; otherwise the turn passes to the defender, and phase and winner are kept. |
| GameEngine.StruckTouches | townService/src/town/games/BattleShipGame.ts:153-175 | A hit marks H at the target on the defender's marker board and clears that cell of the defender's live board; nothing else of either side's boards, the seats or the initial boards changes. |
| GameEngine.ShotOnce | townService/src/town/games/BattleShipGame.ts:141-143 | A cell already marked on the defender's marker board cannot be attacked again. |
| GameEngine.AttackTouchesTarget | townService/src/town/games/BattleShipGame.ts:141-175 | A shot changes only the targeted cell: the defender's marker gains H or M there and the defender's live board loses it; the attacker's side, the setup boards and the seats stay. |
| GameEngine.AttackSinks | townService/src/town/games/BattleShipGame.ts:155-169 | The hit kind joins the defender's sunken list exactly when none of its cells is left after the hit. |
| GameEngine.AttackTurn | townService/src/town/games/BattleShipGame.ts:166-175 | The game ends, with the attacker as winner and the turn unchanged, exactly when the hit clears the defender's last ship cell; otherwise the turn passes to the defender. |
| GameEngine.SunkAfterHit | townService/src/town/games/BattleShipGame.ts:166-169 | Clearing a hit cell keeps a sunken list free of repeats and of kinds still on the board, whether or not the hit kind is appended. |
| GameEngine.AttackInv | townService/src/town/games/BattleShipGame.ts:134-176 | A successful attack keeps the invariant; in particular no kind is ever listed as sunk twice. |
| GameEngine.SetupGuards | townService/src/town/games/BattleShipGame.test.ts:363-677 | Setup errors: PLAYER_NOT_IN_GAME for a non-player, GAME_NOT_IN_PROGRESS while waiting, NOT_YOUR_TURN for a second submission, and the validator's error for an invalid board. |
| GameEngine.Setup | townService/src/town/games/BattleShipGame.ts:115-122 | A setup is accepted exactly when the player is seated, the game is in GAME_START, the player's initial board is still empty and the board validates. On success the seat list is kept and the board becomes the player's initial board. |
| GameEngine.SetupWith | townService/src/town/games/BattleShipGame.ts:115-122 | Given the validator's verdict, a setup is accepted exactly under the same conditions. On success the seat list is kept, the board becomes the player's initial board, and the game is in GAME_MAIN exactly when both initial boards are filled. |
| GameEngine.ApplyMove | townService/src/town/games/BattleShipGame.ts:37-44 | A successful move keeps the seat list. A setup move succeeds only in GAME_START and an attack only in GAME_MAIN. |
| GameEngine.SetupInv | townService/src/town/games/BattleShipGame.ts:115-122 | A successful setup keeps the invariant. |
| GameEngine.SetupStores | townService/src/town/games/BattleShipGame.ts:115-119 | An accepted board is stored as the player's initial board and nothing else changes. The second board moves the game to GAME_MAIN with p1 to play. |
| GameEngine.SetupResubmission | townService/src/town/games/BattleShipGame.test.ts:578-677 | A player who already submitted gets NOT_YOUR_TURN, in the setup phase and in the main phase. |
| GameEngine.SetupEitherOrder | townService/src/town/games/BattleShipGame.test.ts:680-917 | Two valid boards lead to the same main-phase game whichever player submits first. |
| GameObject.ScanAfterHit | townService/src/town/games/BattleShipGame.ts:155-165 | The row-by-row scan reports "sunk" exactly when no cell of the hit kind is left, and "no ships remaining" exactly when the board is empty. |
| GameObject.BattleShipGame.constructor | townService/src/town/games/BattleShipGame.ts:19-35 | A fresh game has no players, free seats, empty boards and waits to start. |
| GameObject.BattleShipGame.PlayerInGame | townService/src/town/games/BattleShipGame.ts:72-79 | The loop returns true exactly when the player is in the seat list. |
| GameObject.BattleShipGame.UpdateExternalState | townService/src/town/games/BattleShipGame.ts:185-201 | Only the status changes, set to the projection of the phase. |
| GameObject.BattleShipGame.Join | townService/src/town/games/BattleShipGame.ts:50-65 | The in-place join produces exactly the game of GameEngine.Join, or its error with nothing changed. |
| GameObject.BattleShipGame.Leave | townService/src/town/games/BattleShipGame.ts:85-113 | The in-place leave produces exactly the game of GameEngine.Leave, or its error with nothing changed. |
| GameObject.BattleShipGame.Depart | townService/src/town/games/BattleShipGame.ts:88-112 | The phase-dependent state change of a leave equals GameEngine.Departed; the seat list is not touched. |
| GameObject.BattleShipGame.FreeSeat | townService/src/town/games/BattleShipGame.ts:89-101 | The leaving player's seat is freed, the second player moving up when the first leaves. |
| GameObject.BattleShipGame.ApplySetupMove | townService/src/town/games/BattleShipGame.ts:115-122 | The setup handler produces exactly the game of GameEngine.Setup, or its error with nothing changed. |
| GameObject.BattleShipGame.Submit | townService/src/town/games/BattleShipGame.ts:115-122 | The setup handler, given the validator's verdict, follows GameEngine.SetupWith. |
| GameObject.BattleShipGame.ApplyAttackMove | townService/src/town/games/BattleShipGame.ts:134-176 | The in-place attack produces exactly the game of GameEngine.Attack, or its error with nothing changed. |
| GameObject.BattleShipGame.ApplyMove | townService/src/town/games/BattleShipGame.ts:37-44 | A move is handled by the setup or the attack handler according to its kind, following GameEngine.ApplyMove. |
| BoardValidator.ValidateOk | townService/src/town/games/BattleShipGame.ts:115-119 | The validator accepts a board with a fleet if and only if the fleet describes the board (each piece fills a straight run inside the board, every occupied cell is on its piece's run) and all five pieces are present. |
| BoardValidator.Validate | townService/src/town/games/BattleShipGame.ts:115-119 | A board is accepted only with a placement for every one of the five kinds. |
| BoardValidator.Step | townService/src/town/games/BattleShipGame.test.ts:419-576 | One cell of the row-major pass either refuses with a Duplicate, Incomplete or NotEnoughSpace error naming the piece on that cell, or keeps every placement already matched. |
| BoardValidator.Place | townService/src/town/games/BattleShipGame.test.ts:419-576 | The pass from a cell on refuses only with a Duplicate, Incomplete or NotEnoughSpace error naming a piece that is on the board, and otherwise keeps every placement already matched. |
| BoardValidator.PlaceSound | townService/src/town/games/BattleShipGame.test.ts:419-576 | Whatever the single pass accepts is a legal layout. |
| BoardValidator.PlaceComplete | townService/src/town/games/BattleShipGame.test.ts:680-917 | A legal layout is accepted by the pass, which reports exactly its placements. |
| BoardValidator.ValidateMissing | townService/src/town/games/BattleShipGame.test.ts:539-562 | A legal layout that lacks pieces is refused with Missing, listing the absent pieces. |
| BoardValidator.MissingMeans | townService/src/lib/InvalidParametersError.ts:17-22 | A Missing error lists, in declaration order and without repeats, exactly the pieces with no cell on the board. |
| BoardValidator.MissingOfLayout | townService/src/lib/InvalidParametersError.ts:17-22 | For a legal layout the absent list is in declaration order and holds exactly the pieces with no cell. |
| BoardValidator.RejectedHasNoLayout | townService/src/town/games/BattleShipGame.test.ts:505-576 | A board refused with Duplicate, Incomplete or NotEnoughSpace has no legal layout at all. |
| BoardValidator.ValidateDuplicate | townService/src/town/games/BattleShipGame.test.ts:505-537 | Duplicate(k) means a whole run of k lies inside the board and a further cell of k lies off that run: a second copy, or a piece longer than k. |
| BoardValidator.ValidateIncomplete | townService/src/town/games/BattleShipGame.test.ts:516-523 | Incomplete(k) means that at k's first cell in row-major order the piece continues in neither direction, or it fits along the direction the pass reads but a cell of that run does not hold k. |
| BoardValidator.ValidateNotEnoughSpace | townService/src/town/games/BattleShipGame.test.ts:566-575 | NotEnoughSpace(k) means that from k's first cell in row-major order the piece continues along the direction the pass reads, and a run of k's length in that direction would pass index 9. |
| BoardValidator.AbsentMembers | townService/src/lib/InvalidParametersError.ts:17-22 | The absent list holds exactly the listed pieces that are not present. |
| BoardValidator.AbsentAscending | townService/src/lib/InvalidParametersError.ts:17-22 | The absent list keeps the declaration order. |
| BoardValidator.LoneSubmarineMissing | townService/src/town/games/BattleShipGame.test.ts:553-562 | A board holding only a Submarine is refused with Missing Destroyer, Cruiser, Battleship, Carrier, in that order. |
| BoardValidator.MissingListAppend | townService/src/lib/InvalidParametersError.ts:21-22 | The missing pieces are named and joined by ", ". |
| BoardValidator.MissingList | townService/src/lib/InvalidParametersError.ts:17-22 | The joined list is empty exactly when no piece is missing, and it starts with the name of the first missing piece. |
| BoardValidator.ValidNonEmpty | townService/src/town/games/BattleShipGame.ts:115-119 | An accepted board is never empty, so an empty initial board always means "not yet submitted". |
| GameArea.Entry | townService/src/town/games/BattleShipGameArea.ts:112-128 | An archived game gives an entry exactly when both seats hold a non-empty id. The entry has players [p1, p2] and scores p1 = ships p1 sank (p2's sunken list), p2 = ships p2 sank. |
| GameArea.HistoryRecords | townService/src/town/games/BattleShipGameArea.ts:108-130 | The history never has more entries than there are archived games. Each entry lists two players, and its result carries the entry's game id. |
| GameArea.HistoryRecordsConcat | townService/src/town/games/BattleShipGameArea.ts:108-130 | The history of two concatenated archives is the concatenation of their histories. |
| GameArea.HistoryRecordsMembers | townService/src/town/games/BattleShipGameArea.ts:108-130 | Every reported entry comes from an archived game with both seats taken, every such game is reported, and there are never more entries than games. |
| GameArea.HistoryGrows | townService/src/town/games/BattleShipGameArea.ts:94-96 | Archiving a game only appends to the report: earlier entries stay, in order. |
| GameArea.BattleShipGameArea.constructor | townService/src/town/games/BattleShipGameArea.ts:34-37 | A fresh area has no game, an empty history and has announced nothing. |
| GameArea.BattleShipGameArea.EmitAreaChanged | townService/src/town/games/BattleShipGameArea.ts:39 | One announcement is counted; nothing else changes. |
| GameArea.BattleShipGameArea.HandleJoinCommand | townService/src/town/games/BattleShipGameArea.ts:34-41 | A game is created only when there is none. The join follows GameEngine.Join; on success the area announces once and returns the game's id, on an error the game stays and nothing is announced. |
| GameArea.BattleShipGameArea.HandleLeaveCommand | townService/src/town/games/BattleShipGameArea.ts:49-59 | Without a game: GAME_NOT_IN_PROGRESS; with another id: GAME_ID_MISMATCH. Otherwise the leave follows GameEngine.Leave, with one announcement exactly on success. |
| GameArea.BattleShipGameArea.HandleGameMoveCommand | townService/src/town/games/BattleShipGameArea.ts:67-81 | The same two guards; then the move, with the command's game id and the sender's id, follows GameEngine.ApplyMove, with one announcement exactly on success. |
| GameArea.BattleShipGameArea.HandleNewGameCommand | townService/src/town/games/BattleShipGameArea.ts:88-100 | The same two guards, leaving the area unchanged. A game that is over is appended to the history, the area has no game and announces once; a game that is not over is left alone. |
| GameArea.BattleShipGameArea.HandleGetHistoryCommand | townService/src/town/games/BattleShipGameArea.ts:108-130 | The loop returns exactly the projection HistoryRecords of the archive. |
| GameArea.BattleShipGameArea.HandleCommand | townService/src/town/games/BattleShipGameArea.ts:138-148 | Each command kind gets its handler's behaviour. An unknown command gets INVALID_COMMAND and changes nothing. GetHistory returns HistoryRecords of the archive and changes nothing. A join creates the game only when there is none, follows GameEngine.Join, and on success answers with the game's id and makes one announcement. Leave and move answer GAME_NOT_IN_PROGRESS without a game and GAME_ID_MISMATCH for another id, changing nothing. Otherwise they follow GameEngine.Leave or GameEngine.ApplyMove and announce exactly on success. NewGame has the same two guards; it archives a finished game, clears it and announces; it leaves an unfinished one alone. Every failure other than a join announces nothing and keeps the history. |
| SetupBoard.CoversCell | frontend/src/components/Town/interactables/BattleShip/BattleShipSetupBoard.tsx:178-187 | The range test a piece uses for "lies on a cell" holds exactly for its cells 0 .. length - 1. |
| SetupBoard.ApartByCells | frontend/src/components/Town/interactables/BattleShip/BattleShipSetupBoard.tsx:210-219 | Two pieces are apart as soon as no cell of one is covered by the other. |
| SetupBoard.InitialLayout | frontend/src/components/Town/interactables/BattleShip/BattleShipSetupBoard.tsx:134-149 | The starting pieces are the five kinds in order, in the field, pairwise apart and off the playing area, so the first board handed on would be empty. |
| SetupBoard.FirstCovering | frontend/src/components/Town/interactables/BattleShip/BattleShipSetupBoard.tsx:169-190 | The result is the first piece in list order lying on the cell, or None when no piece lies there. |
| SetupBoard.FirstCoveringUnique | frontend/src/components/Town/interactables/BattleShip/BattleShipSetupBoard.tsx:169-190 | In a well laid-out list, the piece lying on a cell is the one found there. |
| SetupBoard.GridCells | frontend/src/components/Town/interactables/BattleShip/BattleShipSetupBoard.tsx:151-164 | The board handed on holds exactly the on-area cells of the pieces, each with the piece of a piece lying there. |
| SetupBoard.GridInBoard | frontend/src/components/Town/interactables/BattleShip/BattleShipSetupBoard.tsx:156-161 | Only cells of the 10 x 10 playing area are on the board. |
| SetupBoard.GridEmpty | frontend/src/components/Town/interactables/BattleShip/BattleShipSetupBoard.tsx:151-164 | With no piece on the playing area the board is empty. |
| SetupBoard.GridPiece | frontend/src/components/Town/interactables/BattleShip/BattleShipSetupBoard.tsx:151-164 | In a well laid-out list, each on-area cell of a piece holds that piece. |
| SetupBoard.FleetOf | frontend/src/components/Town/interactables/BattleShip/BattleShipSetupBoard.tsx:134-149 | The placement read off the five pieces covers every kind. |
| SetupBoard.PlacedBoardAccepted | frontend/src/components/Town/interactables/BattleShip/BattleShipSetupBoard.tsx:151-164 | Once all five pieces lie on the playing area, the board handed on is accepted by the game's validator, with every piece found where it lies. |
| SetupBoard.RotatedPivot | frontend/src/components/Town/interactables/BattleShip/BattleShipSetupBoard.tsx:252-260 | Rotating flips the orientation, keeps the piece on the clicked cell, and rotating again about the same cell restores it. |
| SetupBoard.Translated | frontend/src/components/Town/interactables/BattleShip/BattleShipSetupBoard.tsx:231-239 | A dragged piece keeps its kind and orientation, and it lies on a cell exactly when the old piece lay on the cell shifted back by the drag distance. |
| SetupBoard.Rotated | frontend/src/components/Town/interactables/BattleShip/BattleShipSetupBoard.tsx:252-267 | A rotated piece keeps its kind, flips its orientation and still lies on the clicked cell. |
| SetupBoard.PlaceKeepsLayout | frontend/src/components/Town/interactables/BattleShip/BattleShipSetupBoard.tsx:192-221 | Putting a piece where there is space for it keeps every piece in the field and the pieces pairwise apart. |
| SetupBoard.DragMoves | frontend/src/components/Town/interactables/BattleShip/BattleShipSetupBoard.tsx:223-244 | An accepted drag moves only the grabbed piece, by exactly the distance the grab point moved, keeping its orientation; the piece lies on the new grab point and the layout stays well laid out. |
| SetupBoard.DragBack | frontend/src/components/Town/interactables/BattleShip/BattleShipSetupBoard.tsx:223-244 | An accepted drag is undone by dragging back to the old grab point. |
| SetupBoard.RotateTurns | frontend/src/components/Town/interactables/BattleShip/BattleShipSetupBoard.tsx:246-270 | An accepted rotation turns only the clicked piece, keeps it on the clicked cell, and keeps the layout well laid out. |
| SetupBoard.RotateBack | frontend/src/components/Town/interactables/BattleShip/BattleShipSetupBoard.tsx:246-270 | Rotating twice about the same cell restores the layout. |
| SetupBoard.InitialInv | frontend/src/components/Town/interactables/BattleShip/BattleShipSetupBoard.tsx:134-149 | The starting board satisfies the board invariant. |
| SetupBoard.AfterDragInv | frontend/src/components/Town/interactables/BattleShip/BattleShipSetupBoard.tsx:223-244 | A drag keeps the board invariant (pieces in the field, pairwise apart, latest board in sync). A drag that changes anything leaves a piece on the new grab point. |
| SetupBoard.AfterRotateInv | frontend/src/components/Town/interactables/BattleShip/BattleShipSetupBoard.tsx:246-270 | A rotation keeps the board invariant. |
| SetupBoard.AfterMouseInv | frontend/src/components/Town/interactables/BattleShip/BattleShipSetupBoard.tsx:283-303 | Every mouse event keeps the board invariant, and only a drag or a secondary-button release changes the pieces. |
| SetupBoard.BattleShipSetupBoard.constructor | frontend/src/components/Town/interactables/BattleShip/BattleShipSetupBoard.tsx:134-167 | A fresh board has the starting pieces, no grab point and has handed nothing on. |
| SetupBoard.BattleShipSetupBoard.TargetedShip | frontend/src/components/Town/interactables/BattleShip/BattleShipSetupBoard.tsx:169-190 | A missing coordinate is taken from the grab point. The loop returns the first piece lying on the cell, or nothing when a coordinate is still missing. |
| SetupBoard.BattleShipSetupBoard.ExistsSpaceForMove | frontend/src/components/Town/interactables/BattleShip/BattleShipSetupBoard.tsx:192-221 | True exactly when the proposed place lies in the field and meets no other piece; the moving piece is ignored. |
| SetupBoard.BattleShipSetupBoard.NeededCoordinates | frontend/src/components/Town/interactables/BattleShip/BattleShipSetupBoard.tsx:199-207 | The collected column and row lists span exactly the cells of the proposed place. |
| SetupBoard.BattleShipSetupBoard.GenerateModifiedBoard | frontend/src/components/Town/interactables/BattleShip/BattleShipSetupBoard.tsx:151-164 | The board built in the loop is Grid of the pieces, and it is handed on; nothing else changes. |
| SetupBoard.BattleShipSetupBoard.ProcessCellDrag | frontend/src/components/Town/interactables/BattleShip/BattleShipSetupBoard.tsx:223-244 | The new state is AfterDrag of the old one, and the board invariant is kept. |
| SetupBoard.BattleShipSetupBoard.MoveGrabbed | frontend/src/components/Town/interactables/BattleShip/BattleShipSetupBoard.tsx:231-243 | Once the grabbed piece is known, the rest of the drag gives AfterDrag of the old state. |
| SetupBoard.BattleShipSetupBoard.ProcessCellRotate | frontend/src/components/Town/interactables/BattleShip/BattleShipSetupBoard.tsx:246-270 | The new state is AfterRotate of the old one, and the board invariant is kept. |
| SetupBoard.BattleShipSetupBoard.ProcessMouseEvent | frontend/src/components/Town/interactables/BattleShip/BattleShipSetupBoard.tsx:283-303 | The new state is AfterMouse of the old one, and the board invariant is kept. |

## Left out

- The setup validator and the move dispatcher are stubs in the source that only throw. `BoardValidator` and
  `GameEngine.Setup`/`ApplyMove` follow the doc-comments and the tests instead. Where the tests leave the
  order of the setup guards open, the model checks "not seated", then "waiting", then "already
  submitted", then "not in setup", then the board.
- GameEngine.Attack, GameEngine.Resolve and GameObject.BattleShipGame.ApplyAttackMove: the live ship
  boards `p1Board`/`p2Board` are never filled by a setup; the tests expect them to stay `[]`. In the source,
  an attack that passes the guards then reads a row of that empty board (`BattleShipGame.ts:146`) and fails
  with a TypeError, leaving the game unchanged. The model reads a missing cell as an empty one. Such a shot
  is then a miss and the turn passes. The model specifies attacks for any live board.
- GameEngine.Attack: coordinates are integers. The source's range guard (`BattleShipGame.ts:139-140`) lets a
  fractional coordinate inside 0..9 through; the model cannot express one.
- Entering the main phase sets the turn to p1. The source's stub says nothing about the turn; this
  follows the described game flow.
- The win rule follows the code: a game ends when the defender's live board is empty, not when five kinds
  are on a sunken list.
- Players are modelled by their ids. `_playerInGame` compares player objects; with one object per id the
  two readings agree.
- The base class `Game` is not part of this model. Its `join` and `leave` are taken to call `_join` and
  `_leave` and then to append the player to, or filter it out of, the seat list.
- `_appendGameHistory`, `retrieveGameHistory` and `retrieveLeaderboard` only throw in the source and are
  not modelled.
- The area's base class and its socket emission are abstracted as a ghost counter of announcements.
  Game ids from nanoid become a parameter (`newID`) of the join.
- The error messages' text (`util.format` with the piece names) is presentation. The errors are
  datatypes, and only the ", "-joined missing list is modelled (`MissingList`).
- Archived games are value snapshots of id and state. The source stores the game object, which is never
  changed after it is archived.
- The setup board's canvas, images, pixel-to-cell mapping and the `erase`/`draw` calls are not modelled.
  The mouse event arrives already mapped to a cell.
- SetupBoard pieces: the source keeps `Ship` objects and updates their fields in place. The model keeps
  value records in a `seq` field that the handlers reassign, with identity by index. Aliasing between
  the pieces is therefore not modelled.
- SetupBoard pieces: a piece's length is taken from its kind; the source stores a length beside the
  piece, and every constructor call passes the matching one.
- `deliverModifiedBoard` is recorded as the sequence `delivered` of boards handed on. The React state
  setters for the grab point are treated as taking effect at once.
- The presentational React components and `BattleShipAreaController` are not part of this model.
