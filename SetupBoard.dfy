/**
 * The setup board a player arranges their pieces on before submitting them:
 * the five pieces sit on a field of columns -3..12 and rows 0..9, of which
 * columns 0..9 are the playing area. A piece is dragged by the cell it was
 * grabbed at and rotated about the cell that was clicked; either move is made
 * only when the piece's new cells stay in the field and meet no other piece.
 * After each move the playing area is handed on as a board.
 */
module SetupBoard {
  import opened BattleShipTypes
  import BoardValidator

  /**
   * A piece on the setup board. (x, y) is its first cell; a vertical piece
   * extends towards larger y, a horizontal one towards larger x.
   */
  datatype Ship = Ship(piece: ShipKind, x: int, y: int, vertical: bool)

  /** The i-th cell of a piece. */
  function CellOf(s: Ship, i: int): Cell {
    if s.vertical then Cell(s.x, s.y + i) else Cell(s.x + i, s.y)
  }

  /** The piece lies on cell c. */
  predicate Covers(s: Ship, c: Cell) {
    if s.vertical then c.x == s.x && s.y <= c.y < s.y + Length(s.piece)
    else c.y == s.y && s.x <= c.x < s.x + Length(s.piece)
  }

  /** The cells a piece covers are exactly its cells 0 .. length - 1. */
  lemma CoversCell(s: Ship, c: Cell)
    ensures Covers(s, c) <==> exists i :: 0 <= i < Length(s.piece) && CellOf(s, i) == c
  {
    if Covers(s, c) {
      var i := if s.vertical then c.y - s.y else c.x - s.x;
      assert CellOf(s, i) == c;
    }
  }

  /** The field pieces may be placed on: the playing area and three columns either side. */
  predicate InField(c: Cell) {
    -3 <= c.x <= 12 && 0 <= c.y <= 9
  }

  /** Every cell of the piece lies in the field. */
  predicate WithinField(s: Ship) {
    forall i :: 0 <= i < Length(s.piece) ==> InField(CellOf(s, i))
  }

  /** No cell is covered by both pieces. */
  ghost predicate Apart(a: Ship, b: Ship) {
    forall c :: !(Covers(a, c) && Covers(b, c))
  }

  /** The pieces are apart as soon as no cell of a is covered by b. */
  lemma ApartByCells(a: Ship, b: Ship)
    requires forall i :: 0 <= i < Length(a.piece) ==> !Covers(b, CellOf(a, i))
    ensures Apart(a, b)
  {
    forall c | Covers(a, c)
      ensures !Covers(b, c)
    {
      CoversCell(a, c);
    }
  }

  /**
   * Piece t of the list may take the place cand: cand stays in the field and
   * meets no other piece of the list. Piece t itself is not in the way.
   */
  ghost predicate SpaceFor(ships: seq<Ship>, t: int, cand: Ship) {
    && WithinField(cand)
    && forall j :: 0 <= j < |ships| && j != t ==> Apart(ships[j], cand)
  }

  /** Every piece lies in the field and no two pieces meet. */
  ghost predicate WellLaidOut(ships: seq<Ship>) {
    && (forall j :: 0 <= j < |ships| ==> WithinField(ships[j]))
    && (forall j, k :: 0 <= j < |ships| && 0 <= k < |ships| && j != k ==> Apart(ships[j], ships[k]))
  }

  /** The list holds the five pieces, once each, in declaration order. */
  predicate Roster(ships: seq<Ship>) {
    |ships| == |AllKinds| && forall j :: 0 <= j < |ships| ==> ships[j].piece == AllKinds[j]
  }

  /** The pieces as the board starts: all vertical, three left of the playing area and two right of it. */
  const InitialShips: seq<Ship> := [
    Ship(Destroyer, -2, 0, true),
    Ship(Submarine, -2, 3, true),
    Ship(Cruiser, -2, 7, true),
    Ship(Battleship, 11, 0, true),
    Ship(Carrier, 11, 5, true)
  ]

  /** The starting layout holds the five pieces, well laid out, and none of them on the playing area. */
  lemma InitialLayout()
    ensures Roster(InitialShips) && WellLaidOut(InitialShips)
    ensures forall j, c :: 0 <= j < |InitialShips| && Covers(InitialShips[j], c) ==> !InBoard(c)
    ensures Grid(InitialShips) == map[]
  {
    var ships := InitialShips;
    forall j, k | 0 <= j < |ships| && 0 <= k < |ships| && j != k
      ensures Apart(ships[j], ships[k])
    {
    }
    GridEmpty(ships);
  }

  // ---------------------------------------------------------------------------
  // Finding the piece at a cell.

  /** The first piece in list order that lies on c, if any. */
  function FirstCovering(ships: seq<Ship>, c: Cell): (r: Option<nat>)
    ensures r.Some? ==> r.value < |ships| && Covers(ships[r.value], c)
    ensures r.Some? ==> forall j :: 0 <= j < r.value ==> !Covers(ships[j], c)
    ensures r.None? ==> forall j :: 0 <= j < |ships| ==> !Covers(ships[j], c)
  {
    if ships == [] then None
    else if Covers(ships[0], c) then Some(0)
    else
      match FirstCovering(ships[1..], c)
      case None => None
      case Some(j) => Some(j + 1)
  }

  /** In a well laid out list the piece on a cell is the only one there. */
  lemma FirstCoveringUnique(ships: seq<Ship>, t: nat, c: Cell)
    requires WellLaidOut(ships) && t < |ships| && Covers(ships[t], c)
    ensures FirstCovering(ships, c) == Some(t)
  {
  }

  // ---------------------------------------------------------------------------
  // The board handed on after a move.

  /** m with the first n cells of s that lie on the playing area set to s's piece. */
  function Paint(m: ShipBoard, s: Ship, n: nat): ShipBoard {
    if n == 0 then m
    else
      var m' := Paint(m, s, n - 1);
      var c := CellOf(s, n - 1);
      if InBoard(c) then m'[c := s.piece] else m'
  }

  /** The playing area as a board: each piece painted in list order, off-area cells dropped. */
  function Grid(ships: seq<Ship>): ShipBoard {
    if ships == [] then map[]
    else
      var last := ships[|ships| - 1];
      Paint(Grid(ships[..|ships| - 1]), last, Length(last.piece))
  }

  /** Painting a piece adds exactly its on-area cells, holding its piece, and keeps every other cell. */
  lemma {:induction false} PaintCells(m: ShipBoard, s: Ship, n: nat, c: Cell)
    ensures c in Paint(m, s, n) <==> c in m || (InBoard(c) && exists i :: 0 <= i < n && CellOf(s, i) == c)
    ensures (InBoard(c) && exists i :: 0 <= i < n && CellOf(s, i) == c) ==> Paint(m, s, n)[c] == s.piece
    ensures !(exists i :: 0 <= i < n && CellOf(s, i) == c) && c in m ==> Paint(m, s, n)[c] == m[c]
  {
    if n > 0 {
      PaintCells(m, s, n - 1, c);
      var last := CellOf(s, n - 1);
      if c != last {
        if exists i :: 0 <= i < n && CellOf(s, i) == c {
          var i :| 0 <= i < n && CellOf(s, i) == c;
          assert i < n - 1;
        }
      }
    }
  }

  /** The painted cells of a whole piece are its cells on the playing area. */
  lemma PaintPiece(m: ShipBoard, s: Ship, c: Cell)
    ensures c in Paint(m, s, Length(s.piece)) <==> c in m || (InBoard(c) && Covers(s, c))
    ensures InBoard(c) && Covers(s, c) ==> Paint(m, s, Length(s.piece))[c] == s.piece
    ensures !Covers(s, c) && c in m ==> Paint(m, s, Length(s.piece))[c] == m[c]
  {
    PaintCells(m, s, Length(s.piece), c);
    CoversCell(s, c);
  }

  /** The board holds exactly the on-area cells of the pieces; each holds the piece of the last piece on it. */
  lemma {:induction false} GridCells(ships: seq<Ship>, c: Cell)
    ensures c in Grid(ships) <==> InBoard(c) && exists j :: 0 <= j < |ships| && Covers(ships[j], c)
    ensures c in Grid(ships) ==> exists j :: 0 <= j < |ships| && Covers(ships[j], c) && Grid(ships)[c] == ships[j].piece
  {
    if ships != [] {
      var init := ships[..|ships| - 1];
      var last := ships[|ships| - 1];
      GridCells(init, c);
      PaintPiece(Grid(init), last, c);
      if exists j :: 0 <= j < |ships| && Covers(ships[j], c) {
        var j :| 0 <= j < |ships| && Covers(ships[j], c);
        if j < |ships| - 1 {
          assert init[j] == ships[j];
        }
      }
      if c in Grid(ships) && !Covers(last, c) {
        var j :| 0 <= j < |init| && Covers(init[j], c) && Grid(init)[c] == init[j].piece;
        assert ships[j] == init[j];
      }
    }
  }

  /** Only cells of the playing area are on the board. */
  lemma GridInBoard(ships: seq<Ship>)
    ensures KeysInBoard(Grid(ships))
  {
    forall c | c in Grid(ships)
      ensures InBoard(c)
    {
      GridCells(ships, c);
    }
  }

  /** With no piece on the playing area the board is empty. */
  lemma GridEmpty(ships: seq<Ship>)
    requires forall j, c :: 0 <= j < |ships| && Covers(ships[j], c) ==> !InBoard(c)
    ensures Grid(ships) == map[]
  {
    forall c | c in Grid(ships)
      ensures false
    {
      GridCells(ships, c);
    }
  }

  /** In a well laid out list each on-area cell of a piece holds that piece. */
  lemma GridPiece(ships: seq<Ship>, j: nat, c: Cell)
    requires WellLaidOut(ships) && j < |ships| && Covers(ships[j], c) && InBoard(c)
    ensures c in Grid(ships) && Grid(ships)[c] == ships[j].piece
  {
    GridCells(ships, c);
    var k :| 0 <= k < |ships| && Covers(ships[k], c) && Grid(ships)[c] == ships[k].piece;
  }

  /** Every piece lies entirely on the playing area. */
  predicate AllOnBoard(ships: seq<Ship>) {
    forall j, i :: 0 <= j < |ships| && 0 <= i < Length(ships[j].piece) ==> InBoard(CellOf(ships[j], i))
  }

  /** Where the game's validator finds each piece of a list holding the five pieces in order. */
  function FleetOf(ships: seq<Ship>): (f: BoardValidator.Fleet)
    requires Roster(ships)
    ensures forall k: ShipKind :: k in f
  {
    assert forall k: ShipKind :: k in AllKinds by {
      forall k: ShipKind
        ensures k in AllKinds
      {
        assert AllKinds[Rank(k)] == k;
      }
    }
    map k: ShipKind | k in AllKinds ::
      var s := ships[Rank(k)]; BoardValidator.Placement(Cell(s.x, s.y), !s.vertical)
  }

  /**
   * Once the five pieces are all on the playing area, the board handed on is
   * one the game accepts: the validator finds every piece where it lies.
   */
  lemma PlacedBoardAccepted(ships: seq<Ship>)
    requires Roster(ships) && WellLaidOut(ships) && AllOnBoard(ships)
    ensures BoardValidator.Validate(Grid(ships)) == Ok(FleetOf(ships))
  {
    PlacedDescribes(ships);
    BoardValidator.ValidateOk(Grid(ships), FleetOf(ships));
  }

  /** The fleet describes the board: every piece fills its run, and every cell is on its piece's run. */
  lemma PlacedDescribes(ships: seq<Ship>)
    requires Roster(ships) && WellLaidOut(ships) && AllOnBoard(ships)
    ensures BoardValidator.Describes(Grid(ships), FleetOf(ships))
  {
    var b := Grid(ships);
    var f := FleetOf(ships);
    forall k: ShipKind | k in f
      ensures BoardValidator.Fits(f[k], Length(k)) && BoardValidator.RunFilled(b, f[k], k)
    {
      PlacedRun(ships, k);
    }
    forall c | InBoard(c) && c in b
      ensures b[c] in f && BoardValidator.OnRun(f[b[c]], Length(b[c]), c)
    {
      PlacedCell(ships, c);
    }
  }

  /** Each piece lies on the board where the fleet places it. */
  lemma PlacedRun(ships: seq<Ship>, k: ShipKind)
    requires Roster(ships) && WellLaidOut(ships) && AllOnBoard(ships)
    ensures BoardValidator.Fits(FleetOf(ships)[k], Length(k))
    ensures BoardValidator.RunFilled(Grid(ships), FleetOf(ships)[k], k)
  {
    var p := FleetOf(ships)[k];
    var j := Rank(k);
    var s := ships[j];
    assert s.piece == k;
    assert InBoard(CellOf(s, 0)) && InBoard(CellOf(s, Length(k) - 1));
    forall i | 0 <= i < Length(k)
      ensures BoardValidator.At(Grid(ships), BoardValidator.CellOn(p, i)) == Some(k)
    {
      assert BoardValidator.CellOn(p, i) == CellOf(s, i);
      CoversCell(s, CellOf(s, i));
      GridPiece(ships, j, CellOf(s, i));
    }
  }

  /** Each cell on the board belongs to the run the fleet gives its piece. */
  lemma PlacedCell(ships: seq<Ship>, c: Cell)
    requires Roster(ships) && c in Grid(ships)
    ensures Grid(ships)[c] in FleetOf(ships)
    ensures BoardValidator.OnRun(FleetOf(ships)[Grid(ships)[c]], Length(Grid(ships)[c]), c)
  {
    GridCells(ships, c);
    var j :| 0 <= j < |ships| && Covers(ships[j], c) && Grid(ships)[c] == ships[j].piece;
    assert Rank(ships[j].piece) == j;
  }

  // ---------------------------------------------------------------------------
  // Dragging and rotating.

  /** The piece moved by (dx, dy), keeping its orientation. */
  function Translated(s: Ship, dx: int, dy: int): (r: Ship)
    ensures r.piece == s.piece && r.vertical == s.vertical
    ensures forall c {:trigger Covers(r, c)} :: Covers(r, c) <==> Covers(s, Cell(c.x - dx, c.y - dy))
  {
    s.(x := s.x + dx, y := s.y + dy)
  }

  /**
   * The piece turned about the clicked cell c: a vertical piece becomes
   * horizontal in c's row, a horizontal one vertical in c's column, shifted
   * so that it still lies on c.
   */
  function Rotated(s: Ship, c: Cell): (r: Ship)
    ensures r.piece == s.piece && r.vertical == !s.vertical
    ensures Covers(s, c) ==> Covers(r, c)
  {
    if s.vertical then s.(x := s.x - (c.y - s.y), y := c.y, vertical := false)
    else s.(x := c.x, y := s.y - (c.x - s.x), vertical := true)
  }

  /** Rotating flips the orientation, keeps the piece on the clicked cell, and rotating back restores it. */
  lemma RotatedPivot(s: Ship, c: Cell)
    requires Covers(s, c)
    ensures var r := Rotated(s, c);
      && r.piece == s.piece && r.vertical == !s.vertical && Covers(r, c)
      && Rotated(r, c) == s
  {
  }

  /**
   * A drag from the grab point (tx, ty) to (cellX, cellY): the first piece on
   * the grab point moves by the same amount, if there is such a piece, the
   * point moved and there is space. None means nothing changes.
   */
  ghost function Drag(ships: seq<Ship>, tx: int, ty: int, cellX: int, cellY: int): Option<seq<Ship>> {
    if tx == cellX && ty == cellY then None
    else
      match FirstCovering(ships, Cell(tx, ty))
      case None => None
      case Some(t) =>
        var moved := Translated(ships[t], cellX - tx, cellY - ty);
        if SpaceFor(ships, t, moved) then Some(ships[t := moved]) else None
  }

  /** A rotation about (cellX, cellY) of the first piece on it, if there is one and there is space. */
  ghost function Rotate(ships: seq<Ship>, cellX: int, cellY: int): Option<seq<Ship>> {
    match FirstCovering(ships, Cell(cellX, cellY))
    case None => None
    case Some(t) =>
      var turned := Rotated(ships[t], Cell(cellX, cellY));
      if SpaceFor(ships, t, turned) then Some(ships[t := turned]) else None
  }

  /** Putting a piece where there is space for it keeps the list well laid out. */
  lemma PlaceKeepsLayout(ships: seq<Ship>, t: nat, cand: Ship)
    requires WellLaidOut(ships) && t < |ships| && SpaceFor(ships, t, cand)
    ensures WellLaidOut(ships[t := cand])
  {
    var after := ships[t := cand];
    forall j, k | 0 <= j < |after| && 0 <= k < |after| && j != k
      ensures Apart(after[j], after[k])
    {
      if j == t {
        assert Apart(ships[k], cand);
      } else if k != t {
        assert Apart(ships[j], ships[k]);
      }
    }
  }

  /**
   * An accepted drag moves only the grabbed piece, by exactly the distance
   * the grab point moved and keeping its orientation; the piece then lies on
   * the new grab point and the layout stays well laid out.
   */
  lemma DragMoves(ships: seq<Ship>, tx: int, ty: int, cellX: int, cellY: int)
    requires WellLaidOut(ships)
    requires Drag(ships, tx, ty, cellX, cellY).Some?
    ensures var after := Drag(ships, tx, ty, cellX, cellY).value;
      && FirstCovering(ships, Cell(tx, ty)).Some?
      && var t := FirstCovering(ships, Cell(tx, ty)).value;
      && |after| == |ships|
      && (forall j :: 0 <= j < |ships| && j != t ==> after[j] == ships[j])
      && after[t] == ships[t].(x := ships[t].x + (cellX - tx), y := ships[t].y + (cellY - ty))
      && Covers(after[t], Cell(cellX, cellY))
      && WellLaidOut(after)
  {
    var t := FirstCovering(ships, Cell(tx, ty)).value;
    PlaceKeepsLayout(ships, t, Translated(ships[t], cellX - tx, cellY - ty));
  }

  /**
   * A drag that was accepted can be undone by dragging back: the grabbed
   * piece is the only one on the new grab point, and its old place is free.
   */
  lemma DragBack(ships: seq<Ship>, tx: int, ty: int, cellX: int, cellY: int)
    requires WellLaidOut(ships)
    requires Drag(ships, tx, ty, cellX, cellY).Some?
    ensures Drag(Drag(ships, tx, ty, cellX, cellY).value, cellX, cellY, tx, ty) == Some(ships)
  {
    var after := Drag(ships, tx, ty, cellX, cellY).value;
    var t := FirstCovering(ships, Cell(tx, ty)).value;
    DragMoves(ships, tx, ty, cellX, cellY);
    FirstCoveringUnique(after, t, Cell(cellX, cellY));
    var back := Translated(after[t], tx - cellX, ty - cellY);
    assert back == ships[t];
    forall j | 0 <= j < |after| && j != t
      ensures Apart(after[j], back)
    {
      assert Apart(ships[j], ships[t]);
    }
    assert after[t := back] == ships;
  }

  /**
   * An accepted rotation turns only the clicked piece, about the clicked
   * cell, and keeps the layout well laid out.
   */
  lemma RotateTurns(ships: seq<Ship>, cellX: int, cellY: int)
    requires WellLaidOut(ships)
    requires Rotate(ships, cellX, cellY).Some?
    ensures var after := Rotate(ships, cellX, cellY).value;
      && FirstCovering(ships, Cell(cellX, cellY)).Some?
      && var t := FirstCovering(ships, Cell(cellX, cellY)).value;
      && |after| == |ships|
      && (forall j :: 0 <= j < |ships| && j != t ==> after[j] == ships[j])
      && after[t].piece == ships[t].piece && after[t].vertical == !ships[t].vertical
      && Covers(after[t], Cell(cellX, cellY))
      && WellLaidOut(after)
  {
    var t := FirstCovering(ships, Cell(cellX, cellY)).value;
    RotatedPivot(ships[t], Cell(cellX, cellY));
    PlaceKeepsLayout(ships, t, Rotated(ships[t], Cell(cellX, cellY)));
  }

  /** Rotating twice about the same cell restores the layout. */
  lemma RotateBack(ships: seq<Ship>, cellX: int, cellY: int)
    requires WellLaidOut(ships)
    requires Rotate(ships, cellX, cellY).Some?
    ensures Rotate(Rotate(ships, cellX, cellY).value, cellX, cellY) == Some(ships)
  {
    var c := Cell(cellX, cellY);
    var after := Rotate(ships, cellX, cellY).value;
    var t := FirstCovering(ships, c).value;
    RotateTurns(ships, cellX, cellY);
    FirstCoveringUnique(after, t, c);
    RotatedPivot(ships[t], c);
    forall j | 0 <= j < |after| && j != t
      ensures Apart(after[j], ships[t])
    {
      assert Apart(ships[j], ships[t]);
    }
    assert after[t := ships[t]] == ships;
  }

  /** A mouse event on the board, already mapped to a cell; buttons and button as the browser reports them. */
  datatype MouseEvent = MouseDown(buttons: int) | MouseUp(button: int) | MouseMove(buttons: int)

  /**
   * The setup board as a value: the five pieces, the grab point of a drag in
   * progress (its two coordinates are kept separately), and the boards handed
   * on so far, latest last.
   */
  datatype BoardState = BoardState(ships: seq<Ship>, targetX: Option<int>, targetY: Option<int>, delivered: seq<ShipBoard>)

  /** The latest board handed on (an empty one before any) shows the current layout. */
  ghost predicate Synced(b: BoardState) {
    Grid(b.ships) == if b.delivered == [] then map[] else b.delivered[|b.delivered| - 1]
  }

  /** What every reachable setup board satisfies. */
  ghost predicate BoardInv(b: BoardState) {
    Roster(b.ships) && WellLaidOut(b.ships) && Synced(b)
  }

  /** The state after the pointer, with the main button held, moves to (cellX, cellY). */
  ghost function AfterDrag(b: BoardState, cellX: int, cellY: int): BoardState {
    if b.targetX.None? || b.targetY.None? then b
    else
      match Drag(b.ships, b.targetX.value, b.targetY.value, cellX, cellY)
      case None => b
      case Some(after) => BoardState(after, Some(cellX), Some(cellY), b.delivered + [Grid(after)])
  }

  /** The state after a secondary click on (cellX, cellY). */
  ghost function AfterRotate(b: BoardState, cellX: int, cellY: int): BoardState {
    match Rotate(b.ships, cellX, cellY)
    case None => b
    case Some(after) => b.(ships := after, delivered := b.delivered + [Grid(after)])
  }

  /**
   * The state after a mouse event on (cellX, cellY): pressing the main button
   * sets the grab point, releasing it clears the grab point, releasing the
   * secondary button rotates, and moving with the main button held drags.
   */
  ghost function AfterMouse(b: BoardState, event: MouseEvent, cellX: int, cellY: int): BoardState {
    match event
    case MouseDown(buttons) =>
      if buttons == 1 then b.(targetX := Some(cellX), targetY := Some(cellY)) else b
    case MouseUp(button) =>
      if button == 0 then b.(targetX := None, targetY := None)
      else if button == 2 then AfterRotate(b, cellX, cellY)
      else b
    case MouseMove(buttons) =>
      if buttons == 1 then AfterDrag(b, cellX, cellY) else b
  }

  /** The starting board satisfies the invariant. */
  lemma InitialInv()
    ensures BoardInv(BoardState(InitialShips, None, None, []))
  {
    InitialLayout();
  }

  /** A drag keeps the invariant; an accepted one hands on the new layout and leaves the grab point on the piece. */
  lemma AfterDragInv(b: BoardState, cellX: int, cellY: int)
    requires BoardInv(b)
    ensures BoardInv(AfterDrag(b, cellX, cellY))
    ensures AfterDrag(b, cellX, cellY) != b ==>
      exists t :: 0 <= t < |b.ships| && Covers(AfterDrag(b, cellX, cellY).ships[t], Cell(cellX, cellY))
  {
    if b.targetX.Some? && b.targetY.Some? && Drag(b.ships, b.targetX.value, b.targetY.value, cellX, cellY).Some? {
      DragMoves(b.ships, b.targetX.value, b.targetY.value, cellX, cellY);
    }
  }

  /** A rotation keeps the invariant. */
  lemma AfterRotateInv(b: BoardState, cellX: int, cellY: int)
    requires BoardInv(b)
    ensures BoardInv(AfterRotate(b, cellX, cellY))
  {
    if Rotate(b.ships, cellX, cellY).Some? {
      RotateTurns(b.ships, cellX, cellY);
    }
  }

  /** Every mouse event keeps the invariant, and only a drag or a rotation changes the layout. */
  lemma AfterMouseInv(b: BoardState, event: MouseEvent, cellX: int, cellY: int)
    requires BoardInv(b)
    ensures BoardInv(AfterMouse(b, event, cellX, cellY))
    ensures AfterMouse(b, event, cellX, cellY).ships != b.ships ==>
      (event.MouseMove? && event.buttons == 1) || (event.MouseUp? && event.button == 2)
  {
    AfterDragInv(b, cellX, cellY);
    AfterRotateInv(b, cellX, cellY);
  }

  /** The setup board; its fields are updated in place by the handlers. */
  class BattleShipSetupBoard {
    var ships: seq<Ship>
    var targetX: Option<int>
    var targetY: Option<int>
    var delivered: seq<ShipBoard>

    /** The board as a value. */
    function Value(): BoardState
      reads this
    {
      BoardState(ships, targetX, targetY, delivered)
    }

    ghost predicate Valid()
      reads this
    {
      BoardInv(Value())
    }

    /** A fresh board: the starting layout, no grab point, nothing handed on yet. */
    constructor()
      ensures Value() == BoardState(InitialShips, None, None, []) && Valid()
    {
      ships := InitialShips;
      targetX := None;
      targetY := None;
      delivered := [];
      InitialInv();
    }

    /**
     * The first piece in list order on the cell (x, y); a missing coordinate
     * is taken from the grab point. None when a coordinate is still missing or
     * no piece lies there.
     */
    method TargetedShip(x: Option<int>, y: Option<int>) returns (t: Option<nat>)
      ensures var cx := if x.None? then targetX else x;
        var cy := if y.None? then targetY else y;
        t == if cx.None? || cy.None? then None else FirstCovering(ships, Cell(cx.value, cy.value))
    {
      var cx := if x.None? then targetX else x;
      var cy := if y.None? then targetY else y;
      if cx.None? || cy.None? {
        return None;
      }
      var c := Cell(cx.value, cy.value);
      t := None;
      var j := 0;
      while j < |ships|
        invariant 0 <= j <= |ships|
        invariant forall k :: 0 <= k < j ==> !Covers(ships[k], c)
      {
        var ship := ships[j];
        if ship.vertical {
          if c.x == ship.x && c.y >= ship.y && c.y < ship.y + Length(ship.piece) {
            t := Some(j);
            break;
          }
        } else {
          if c.y == ship.y && c.x >= ship.x && c.x < ship.x + Length(ship.piece) {
            t := Some(j);
            break;
          }
        }
        j := j + 1;
      }
      FirstCoveringPrefix(ships, c, j);
    }

    /**
     * Whether piece t could take the place with first cell (newX, newY) and
     * the given orientation: the cells it would need are collected as a
     * column and a row list, checked against the field, then against every
     * cell of every other piece.
     */
    method ExistsSpaceForMove(t: nat, newX: int, newY: int, toBeVertical: bool) returns (b: bool)
      requires t < |ships|
      ensures b <==> SpaceFor(ships, t, Ship(ships[t].piece, newX, newY, toBeVertical))
    {
      var cand := Ship(ships[t].piece, newX, newY, toBeVertical);
      if newX < -3 || newX > 12 || newY < 0 || newY > 9 {
        assert !InField(CellOf(cand, 0));
        return false;
      }
      var neededX, neededY := NeededCoordinates(cand);
      for k := 0 to |neededX|
        invariant forall q :: 0 <= q < k ==> -3 <= neededX[q] <= 12
      {
        if neededX[k] < -3 || neededX[k] > 12 {
          NeededOutside(cand, neededX, neededY, Cell(neededX[k], neededY[0]));
          return false;
        }
      }
      for k := 0 to |neededY|
        invariant forall q :: 0 <= q < k ==> 0 <= neededY[q] <= 9
      {
        if neededY[k] < 0 || neededY[k] > 9 {
          NeededOutside(cand, neededX, neededY, Cell(neededX[0], neededY[k]));
          return false;
        }
      }
      NeededInside(cand, neededX, neededY);
      for j := 0 to |ships|
        invariant forall q :: 0 <= q < j && q != t ==> Apart(ships[q], cand)
      {
        if j == t {
          continue;
        }
        var ship := ships[j];
        for i := 0 to Length(ship.piece)
          invariant forall p :: 0 <= p < i ==> !Covers(cand, CellOf(ship, p))
        {
          var c := CellOf(ship, i);
          if c.x in neededX && c.y in neededY {
            assert !Apart(ship, cand) by {
              assert Covers(ship, c) by { CoversCell(ship, c); }
            }
            return false;
          }
        }
        ApartByCells(ship, cand);
      }
      return true;
    }

    /**
     * The columns and the rows a piece at cand would need: one column and a
     * row per cell when vertical, one row and a column per cell otherwise.
     */
    static method NeededCoordinates(cand: Ship) returns (neededX: seq<int>, neededY: seq<int>)
      ensures neededX != [] && neededY != []
      ensures forall c :: Covers(cand, c) <==> c.x in neededX && c.y in neededY
    {
      neededX := [];
      neededY := [];
      if cand.vertical {
        neededX := neededX + [cand.x];
        for i := 0 to Length(cand.piece)
          invariant neededY == seq(i, k => cand.y + k)
        {
          neededY := neededY + [cand.y + i];
        }
      } else {
        neededY := neededY + [cand.y];
        for i := 0 to Length(cand.piece)
          invariant neededX == seq(i, k => cand.x + k)
        {
          neededX := neededX + [cand.x + i];
        }
      }
      NeededCells(cand, neededX, neededY);
    }

    /** Hands the playing area on as a board; nothing else changes. */
    method GenerateModifiedBoard()
      modifies this
      ensures Value() == old(Value()).(delivered := old(delivered) + [Grid(ships)])
    {
      var newBoard: ShipBoard := map[];
      for j := 0 to |ships|
        invariant newBoard == Grid(ships[..j])
      {
        var ship := ships[j];
        for i := 0 to Length(ship.piece)
          invariant newBoard == Paint(Grid(ships[..j]), ship, i)
        {
          if ship.vertical {
            if ship.x >= 0 && ship.x <= 9 && ship.y + i >= 0 && ship.y + i <= 9 {
              newBoard := newBoard[Cell(ship.x, ship.y + i) := ship.piece];
            }
          } else {
            if ship.y >= 0 && ship.y <= 9 && ship.x + i >= 0 && ship.x + i <= 9 {
              newBoard := newBoard[Cell(ship.x + i, ship.y) := ship.piece];
            }
          }
        }
        assert ships[..j + 1][..j] == ships[..j];
      }
      assert ships[..|ships|] == ships;
      delivered := delivered + [newBoard];
    }

    /**
     * Moves the grabbed piece with the pointer to (cellX, cellY): the grab
     * point follows and the board is handed on. Nothing happens without a grab
     * point, when the pointer is still on it, when no piece lies there, or
     * when there is no space.
     */
    method ProcessCellDrag(cellX: int, cellY: int)
      requires Valid()
      modifies this
      ensures Value() == AfterDrag(old(Value()), cellX, cellY)
      ensures Valid()
    {
      if targetX.None? || targetY.None? {
        return;
      }
      var tx := targetX.value;
      var ty := targetY.value;
      if tx == cellX && ty == cellY {
        return;
      }
      var target := TargetedShip(None, None);
      if target.None? {
        return;
      }
      MoveGrabbed(target.value, tx, ty, cellX, cellY);
      AfterDragInv(old(Value()), cellX, cellY);
    }

    /** The rest of a drag once the grabbed piece t is known: it moves if there is space at its new place. */
    method MoveGrabbed(t: nat, tx: int, ty: int, cellX: int, cellY: int)
      requires targetX == Some(tx) && targetY == Some(ty) && (tx != cellX || ty != cellY)
      requires FirstCovering(ships, Cell(tx, ty)) == Some(t)
      modifies this
      ensures Value() == AfterDrag(old(Value()), cellX, cellY)
    {
      var ship := ships[t];
      var newX := ship.x + (cellX - tx);
      var newY := ship.y + (cellY - ty);
      var space := ExistsSpaceForMove(t, newX, newY, ship.vertical);
      assert Ship(ship.piece, newX, newY, ship.vertical) == Translated(ship, cellX - tx, cellY - ty);
      if !space {
        return;
      }
      ships := ships[t := ship.(x := newX, y := newY)];
      targetX := Some(cellX);
      targetY := Some(cellY);
      GenerateModifiedBoard();
    }

    /** Turns the piece on (cellX, cellY) about that cell and hands the board on, if there is space. */
    method ProcessCellRotate(cellX: int, cellY: int)
      requires Valid()
      modifies this
      ensures Value() == AfterRotate(old(Value()), cellX, cellY)
      ensures Valid()
    {
      var target := TargetedShip(Some(cellX), Some(cellY));
      if target.None? {
        return;
      }
      var t := target.value;
      var ship := ships[t];
      var newX, newY;
      if ship.vertical {
        newY := cellY;
        newX := ship.x - (cellY - ship.y);
      } else {
        newX := cellX;
        newY := ship.y - (cellX - ship.x);
      }
      var space := ExistsSpaceForMove(t, newX, newY, !ship.vertical);
      assert Ship(ship.piece, newX, newY, !ship.vertical) == Rotated(ship, Cell(cellX, cellY));
      if !space {
        assert Rotate(ships, cellX, cellY) == None;
        return;
      }
      ships := ships[t := ship.(x := newX, y := newY, vertical := !ship.vertical)];
      assert ships == Rotate(old(ships), cellX, cellY).value;
      GenerateModifiedBoard();
      AfterRotateInv(old(Value()), cellX, cellY);
    }

    /** Handles a mouse event on cell (cellX, cellY). */
    method ProcessMouseEvent(event: MouseEvent, cellX: int, cellY: int)
      requires Valid()
      modifies this
      ensures Value() == AfterMouse(old(Value()), event, cellX, cellY)
      ensures Valid()
    {
      match event {
        case MouseDown(buttons) =>
          if buttons == 1 {
            targetX := Some(cellX);
            targetY := Some(cellY);
          }
        case MouseUp(button) =>
          if button == 0 {
            targetX := None;
            targetY := None;
          } else if button == 2 {
            ProcessCellRotate(cellX, cellY);
          }
        case MouseMove(buttons) =>
          if buttons == 1 {
            ProcessCellDrag(cellX, cellY);
          }
      }
      AfterMouseInv(old(Value()), event, cellX, cellY);
    }
  }

  /** A scan that passed the first j pieces without a hit agrees with FirstCovering. */
  lemma FirstCoveringPrefix(ships: seq<Ship>, c: Cell, j: nat)
    requires j <= |ships| && forall k :: 0 <= k < j ==> !Covers(ships[k], c)
    ensures j == |ships| ==> FirstCovering(ships, c) == None
    ensures j < |ships| && Covers(ships[j], c) ==> FirstCovering(ships, c) == Some(j)
  {
    var r := FirstCovering(ships, c);
    if r.Some? {
      assert r.value >= j;
    }
  }

  /** The column list and row list of a candidate place span exactly the cells it would cover. */
  lemma NeededCells(cand: Ship, neededX: seq<int>, neededY: seq<int>)
    requires cand.vertical ==> neededX == [cand.x] && neededY == seq(Length(cand.piece), k => cand.y + k)
    requires !cand.vertical ==> neededY == [cand.y] && neededX == seq(Length(cand.piece), k => cand.x + k)
    ensures neededX != [] && neededY != []
    ensures forall c :: Covers(cand, c) <==> c.x in neededX && c.y in neededY
  {
    forall c
      ensures Covers(cand, c) <==> c.x in neededX && c.y in neededY
    {
      if cand.vertical && Covers(cand, c) {
        assert neededY[c.y - cand.y] == c.y;
      } else if !cand.vertical && Covers(cand, c) {
        assert neededX[c.x - cand.x] == c.x;
      }
    }
  }

  /** A needed cell outside the field rules the place out. */
  lemma NeededOutside(cand: Ship, neededX: seq<int>, neededY: seq<int>, c: Cell)
    requires forall d :: Covers(cand, d) <==> d.x in neededX && d.y in neededY
    requires c.x in neededX && c.y in neededY && !InField(c)
    ensures !WithinField(cand)
  {
    CoversCell(cand, c);
  }

  /** When every column and row needed lies in the field, so does the place. */
  lemma NeededInside(cand: Ship, neededX: seq<int>, neededY: seq<int>)
    requires forall d :: Covers(cand, d) <==> d.x in neededX && d.y in neededY
    requires forall q :: 0 <= q < |neededX| ==> -3 <= neededX[q] <= 12
    requires forall q :: 0 <= q < |neededY| ==> 0 <= neededY[q] <= 9
    ensures WithinField(cand)
  {
    forall i | 0 <= i < Length(cand.piece)
      ensures InField(CellOf(cand, i))
    {
      CoversCell(cand, CellOf(cand, i));
    }
  }
}
