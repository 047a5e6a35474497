/**
 * The setup-board validator. The game's setup handler is only a stub in the
 * source; its behaviour is specified by its doc-comment and by the setup tests:
 * one row-major pass over the 10 x 10 board that finds each piece at its first
 * cell, reads its direction off the neighbouring cell, checks its length and
 * reports the first violation, followed by a check for missing pieces.
 */
module BoardValidator {
  import opened BattleShipTypes

  /** Where a piece lies: its first cell in row-major order, and whether it extends along x or along y. */
  datatype Placement = Placement(start: Cell, alongX: bool)

  /** The placements found for the pieces seen so far. */
  type Fleet = map<ShipKind, Placement>

  /** The j-th cell of the run that starts at p. */
  function CellOn(p: Placement, j: int): Cell {
    if p.alongX then Cell(p.start.x + j, p.start.y) else Cell(p.start.x, p.start.y + j)
  }

  /** c is one of the n cells of the run that starts at p. */
  predicate OnRun(p: Placement, n: int, c: Cell) {
    if p.alongX then c.y == p.start.y && p.start.x <= c.x < p.start.x + n
    else c.x == p.start.x && p.start.y <= c.y < p.start.y + n
  }

  /** The run of n cells from p lies inside the board. */
  predicate Fits(p: Placement, n: int) {
    InBoard(p.start) && (if p.alongX then p.start.x + n - 1 <= 9 else p.start.y + n - 1 <= 9)
  }

  /** The piece the validator sees at c; cells outside the 10 x 10 board read as empty. */
  function At(b: ShipBoard, c: Cell): (r: Option<ShipKind>)
    ensures r.Some? <==> InBoard(c) && c in b
    ensures r.Some? ==> r.value == b[c]
  {
    if InBoard(c) && c in b then Some(b[c]) else None
  }

  /** Row-major position of a cell. */
  function Index(c: Cell): int {
    10 * c.x + c.y
  }

  /** The cell at row-major position i. */
  function CellAt(i: nat): (c: Cell)
    requires i < 100
    ensures InBoard(c) && Index(c) == i
  {
    Cell(i / 10, i % 10)
  }

  /** Every cell of the run from p holds piece k. */
  predicate RunFilled(b: ShipBoard, p: Placement, k: ShipKind) {
    forall j :: 0 <= j < Length(k) ==> At(b, CellOn(p, j)) == Some(k)
  }

  /** c belongs to a piece that has already been matched. */
  predicate Visited(placed: Fleet, c: Cell) {
    exists k :: k in placed && OnRun(placed[k], Length(k), c)
  }

  /**
   * One step of the pass at cell c: skip an empty or already matched cell, or
   * match the piece that starts at c and add its placement.
   */
  function Step(b: ShipBoard, c: Cell, placed: Fleet): (r: Result<Fleet, SetupError>)
    ensures r.Err? ==> !r.error.Missing? && At(b, c) == Some(r.error.kind)
    ensures r.Ok? ==> placed.Keys <= r.value.Keys
  {
    match At(b, c)
    case None => Ok(placed)
    case Some(k) =>
      if Visited(placed, c) then Ok(placed)
      else if k in placed then Err(Duplicate(k))
      else
        var alongX := At(b, Cell(c.x + 1, c.y)) == Some(k);
        if !alongX && At(b, Cell(c.x, c.y + 1)) != Some(k) then Err(Incomplete(k))
        else
          var p := Placement(c, alongX);
          if !Fits(p, Length(k)) then Err(NotEnoughSpace(k))
          else if !RunFilled(b, p, k) then Err(Incomplete(k))
          else Ok(placed[k := p])
  }

  /**
   * The single pass, from row-major position i on, with the pieces matched so
   * far in `placed`. On success it returns the placement of every piece found;
   * it never reports a missing piece, and it never forgets a matched one.
   */
  function Place(b: ShipBoard, i: nat, placed: Fleet): (r: Result<Fleet, SetupError>)
    ensures r.Err? ==> !r.error.Missing? && r.error.kind in b.Values
    ensures r.Ok? ==> placed.Keys <= r.value.Keys
    decreases 100 - i
  {
    if i >= 100 then Ok(placed)
    else
      match Step(b, CellAt(i), placed)
      case Err(e) => Err(e)
      case Ok(placed') => Place(b, i + 1, placed')
  }

  /** The whole pass, from the first cell with nothing matched. */
  function Scan(b: ShipBoard): Result<Fleet, SetupError> {
    Place(b, 0, map[])
  }

  /** The pieces of ks that are not in `present`, keeping the order of ks. */
  function Absent(ks: seq<ShipKind>, present: set<ShipKind>): seq<ShipKind> {
    if ks == [] then []
    else (if ks[0] in present then [] else [ks[0]]) + Absent(ks[1..], present)
  }

  /** Validates a submitted board: Ok with the placement of every piece, or the first error found. */
  function Validate(b: ShipBoard): (r: Result<Fleet, SetupError>)
    ensures r.Ok? ==> Complete(r.value)
  {
    match Scan(b)
    case Err(e) => Err(e)
    case Ok(f) =>
      var missing := Absent(AllKinds, f.Keys);
      NoneAbsent(f.Keys);
      if missing == [] then Ok(f) else Err(Missing(missing))
  }

  /** The list of missing pieces as the error message shows it: names joined by ", ". */
  function MissingList(ks: seq<ShipKind>): (r: string)
    ensures r == "" <==> ks == []
    ensures ks != [] ==> Name(ks[0]) <= r
  {
    if ks == [] then ""
    else if |ks| == 1 then Name(ks[0])
    else Name(ks[0]) + ", " + MissingList(ks[1..])
  }

  // ---------------------------------------------------------------------------
  // The declarative reading of a legal layout.

  /**
   * Fleet f describes board b: each piece of f fills exactly its straight run
   * inside the board, and every occupied cell of the board belongs to the run
   * of its own piece (so pieces outside f do not occur at all).
   */
  ghost predicate Describes(b: ShipBoard, f: Fleet) {
    && (forall k :: k in f ==> Fits(f[k], Length(k)) && RunFilled(b, f[k], k))
    && (forall c :: InBoard(c) && c in b ==> b[c] in f && OnRun(f[b[c]], Length(b[c]), c))
  }

  /** Piece k occupies no cell of the board. */
  ghost predicate NoCells(b: ShipBoard, k: ShipKind) {
    forall c :: InBoard(c) && c in b ==> b[c] != k
  }

  // ---------------------------------------------------------------------------
  // Facts about cells and runs.

  /** Distinct cells of the board have distinct row-major positions. */
  lemma IndexInjective(c: Cell, d: Cell)
    requires InBoard(c) && InBoard(d)
    ensures Index(c) == Index(d) <==> c == d
  {
    assert 10 * c.x <= Index(c) < 10 * c.x + 10;
    assert 10 * d.x <= Index(d) < 10 * d.x + 10;
  }

  /** A cell of a run is its j-th cell for the matching offset j. */
  lemma OnRunCellOn(p: Placement, n: int, c: Cell)
    requires OnRun(p, n, c)
    ensures p.alongX ==> c == CellOn(p, c.x - p.start.x) && 0 <= c.x - p.start.x < n
    ensures !p.alongX ==> c == CellOn(p, c.y - p.start.y) && 0 <= c.y - p.start.y < n
  {
  }

  /** Runs go right or down, so no cell of a run comes before its start. */
  lemma OnRunAfterStart(p: Placement, n: int, c: Cell)
    requires OnRun(p, n, c)
    ensures Index(p.start) <= Index(c)
  {
  }

  // ---------------------------------------------------------------------------
  // Soundness: a board the pass accepts is described by the fleet it returns.

  /** What the pass knows after reading the cells before position i. */
  ghost predicate ScanInv(b: ShipBoard, i: int, placed: Fleet) {
    && i <= 100
    && (forall k :: k in placed ==> Fits(placed[k], Length(k)) && RunFilled(b, placed[k], k))
    && (forall c :: InBoard(c) && c in b && Index(c) < i ==>
          b[c] in placed && OnRun(placed[b[c]], Length(b[c]), c))
  }

  /** A cell on the run of a matched piece holds that piece. */
  lemma OnMatchedRun(b: ShipBoard, placed: Fleet, k: ShipKind, c: Cell)
    requires k in placed && RunFilled(b, placed[k], k) && OnRun(placed[k], Length(k), c)
    ensures InBoard(c) && c in b && b[c] == k
  {
    OnRunCellOn(placed[k], Length(k), c);
    var p := placed[k];
    var j := if p.alongX then c.x - p.start.x else c.y - p.start.y;
    assert At(b, CellOn(p, j)) == Some(k);
  }

  lemma StepSound(b: ShipBoard, i: nat, placed: Fleet)
    requires i < 100 && ScanInv(b, i, placed) && Step(b, CellAt(i), placed).Ok?
    ensures ScanInv(b, i + 1, Step(b, CellAt(i), placed).value)
  {
    var c := CellAt(i);
    var placed' := Step(b, c, placed).value;
    forall d | InBoard(d) && d in b && Index(d) < i + 1
      ensures b[d] in placed' && OnRun(placed'[b[d]], Length(b[d]), d)
    {
      if Index(d) == i {
        IndexInjective(c, d);
        if Visited(placed, c) {
          var k :| k in placed && OnRun(placed[k], Length(k), c);
          OnMatchedRun(b, placed, k, c);
        }
      }
    }
  }

  lemma {:induction false} PlaceSoundFrom(b: ShipBoard, i: nat, placed: Fleet)
    requires ScanInv(b, i, placed) && Place(b, i, placed).Ok?
    ensures Describes(b, Place(b, i, placed).value)
    decreases 100 - i
  {
    if i < 100 {
      StepSound(b, i, placed);
      PlaceSoundFrom(b, i + 1, Step(b, CellAt(i), placed).value);
    } else {
      forall c | InBoard(c) && c in b
        ensures Index(c) < i
      {
      }
    }
  }

  /** Whatever the pass accepts is a legal layout: every piece it reports fills its run, and nothing else is on the board. */
  lemma PlaceSound(b: ShipBoard)
    requires Scan(b).Ok?
    ensures Describes(b, Scan(b).value)
  {
    ScanStart(b);
    PlaceSoundFrom(b, 0, map[]);
  }

  lemma ScanStart(b: ShipBoard)
    ensures ScanInv(b, 0, map[])
  {
  }

  // ---------------------------------------------------------------------------
  // Completeness: a legal layout is accepted, with exactly its own placements.

  /** The pieces of f whose first cell comes before position i. */
  function Before(f: Fleet, i: int): Fleet {
    map k | k in f && Index(f[k].start) < i :: f[k]
  }

  /** A piece of a legal layout holds its own first cell. */
  lemma StartHolds(b: ShipBoard, f: Fleet, k: ShipKind)
    requires Describes(b, f) && k in f
    ensures InBoard(f[k].start) && f[k].start in b && b[f[k].start] == k
  {
    assert CellOn(f[k], 0) == f[k].start;
    assert At(b, CellOn(f[k], 0)) == Some(k);
  }

  /** At a cell where no piece of f starts, the step changes nothing. */
  lemma StepCompleteSkip(b: ShipBoard, f: Fleet, i: nat)
    requires i < 100 && Describes(b, f)
    requires forall k :: k in f ==> f[k].start != CellAt(i)
    ensures Step(b, CellAt(i), Before(f, i)) == Ok(Before(f, i))
    ensures Before(f, i + 1) == Before(f, i)
  {
    var c := CellAt(i);
    forall k | k in f && Index(f[k].start) < i + 1
      ensures Index(f[k].start) < i
    {
      StartHolds(b, f, k);
      IndexInjective(c, f[k].start);
    }
    if At(b, c).Some? {
      var k := b[c];
      OnRunAfterStart(f[k], Length(k), c);
      StartHolds(b, f, k);
      IndexInjective(c, f[k].start);
      assert k in Before(f, i);
      assert Visited(Before(f, i), c);
    }
  }

  /** At the first cell of piece k, the step matches k with its placement in f. */
  lemma StepCompleteNew(b: ShipBoard, f: Fleet, i: nat, k: ShipKind)
    requires i < 100 && Describes(b, f) && k in f && f[k].start == CellAt(i)
    ensures Step(b, CellAt(i), Before(f, i)) == Ok(Before(f, i)[k := f[k]])
    ensures Before(f, i + 1) == Before(f, i)[k := f[k]]
  {
    var c := CellAt(i);
    var placed := Before(f, i);
    var p := f[k];
    StartHolds(b, f, k);
    assert At(b, c) == Some(k);
    assert !Visited(placed, c) by {
      forall k' | k' in placed
        ensures !OnRun(placed[k'], Length(k'), c)
      {
        if OnRun(placed[k'], Length(k'), c) {
          OnMatchedRun(b, f, k', c);
        }
      }
    }
    assert At(b, Cell(c.x + 1, c.y)) == Some(k) <==> p.alongX by {
      if p.alongX {
        assert At(b, CellOn(p, 1)) == Some(k);
      }
    }
    if !p.alongX {
      assert At(b, CellOn(p, 1)) == Some(k);
    }
    forall k' | k' in f && Index(f[k'].start) < i + 1 && k' != k
      ensures Index(f[k'].start) < i
    {
      StartHolds(b, f, k');
      IndexInjective(c, f[k'].start);
    }
  }

  lemma {:induction false} PlaceCompleteFrom(b: ShipBoard, f: Fleet, i: nat)
    requires i <= 100 && Describes(b, f)
    ensures Place(b, i, Before(f, i)) == Ok(f)
    decreases 100 - i
  {
    if i < 100 {
      if k :| k in f && f[k].start == CellAt(i) {
        StepCompleteNew(b, f, i, k);
      } else {
        StepCompleteSkip(b, f, i);
      }
      PlaceCompleteFrom(b, f, i + 1);
    } else {
      forall k | k in f
        ensures Index(f[k].start) < 100
      {
        StartHolds(b, f, k);
      }
      assert Before(f, i) == f;
    }
  }

  /** A legal layout is accepted by the pass, which reports exactly its placements. */
  lemma PlaceComplete(b: ShipBoard, f: Fleet)
    requires Describes(b, f)
    ensures Scan(b) == Ok(f)
  {
    NothingBefore(b, f);
    PlaceCompleteFrom(b, f, 0);
  }

  lemma NothingBefore(b: ShipBoard, f: Fleet)
    requires Describes(b, f)
    ensures Before(f, 0) == map[]
  {
    forall k | k in f
      ensures Index(f[k].start) >= 0
    {
      StartHolds(b, f, k);
    }
  }

  // ---------------------------------------------------------------------------
  // What Validate reports.

  /** Every piece is present in f. */
  predicate Complete(f: Fleet) {
    forall k: ShipKind :: k in f
  }

  /** The pieces of ks come in strictly increasing declaration order. */
  predicate Ascending(ks: seq<ShipKind>) {
    forall i, j :: 0 <= i < j < |ks| ==> Rank(ks[i]) < Rank(ks[j])
  }

  /** Absent keeps exactly the pieces of ks that are not present. */
  lemma {:induction false} AbsentMembers(ks: seq<ShipKind>, present: set<ShipKind>, k: ShipKind)
    ensures k in Absent(ks, present) <==> k in ks && k !in present
  {
    if ks != [] {
      AbsentMembers(ks[1..], present, k);
      assert k in ks <==> k == ks[0] || k in ks[1..];
    }
  }

  /** Absent keeps the order of ks. */
  lemma {:induction false} AbsentAscending(ks: seq<ShipKind>, present: set<ShipKind>)
    requires Ascending(ks)
    ensures Ascending(Absent(ks, present))
  {
    if ks != [] {
      var rest := Absent(ks[1..], present);
      AbsentAscending(ks[1..], present);
      forall k | k in rest
        ensures Rank(ks[0]) < Rank(k)
      {
        AbsentMembers(ks[1..], present, k);
        var j :| 0 <= j < |ks[1..]| && ks[1..][j] == k;
        assert ks[j + 1] == k;
      }
      var a := Absent(ks, present);
      if ks[0] !in present {
        forall i, j | 0 <= i < j < |a|
          ensures Rank(a[i]) < Rank(a[j])
        {
          if i == 0 {
            assert a[j] == rest[j - 1];
            assert a[j] in rest;
          } else {
            assert a[i] == rest[i - 1] && a[j] == rest[j - 1];
          }
        }
      } else {
        assert a == rest;
      }
    }
  }

  /**
   * A board is accepted exactly when it is a legal layout of all five pieces;
   * the fleet returned gives each piece's placement.
   */
  lemma ValidateOk(b: ShipBoard, f: Fleet)
    ensures Validate(b) == Ok(f) <==> Describes(b, f) && Complete(f)
  {
    if Validate(b) == Ok(f) {
      assert Scan(b).Ok?;
      var g := Scan(b).value;
      assert Validate(b) == (var m := Absent(AllKinds, g.Keys); if m == [] then Ok(g) else Err(Missing(m)));
      PlaceSound(b);
      NoneAbsent(f.Keys);
    }
    if Describes(b, f) && Complete(f) {
      PlaceComplete(b, f);
      NoneAbsent(f.Keys);
    }
  }

  /** No piece is missing exactly when every piece is present. */
  lemma NoneAbsent(present: set<ShipKind>)
    ensures Absent(AllKinds, present) == [] <==> forall k: ShipKind :: k in present
  {
    forall k: ShipKind
      ensures k in Absent(AllKinds, present) <==> k !in present
    {
      AbsentMembers(AllKinds, present, k);
      assert k == AllKinds[Rank(k)];
    }
    if Absent(AllKinds, present) != [] {
      assert Absent(AllKinds, present)[0] in Absent(AllKinds, present);
    }
  }

  /**
   * A legal layout that lacks some pieces is refused with the list of the
   * missing pieces, in declaration order.
   */
  lemma ValidateMissing(b: ShipBoard, f: Fleet)
    requires Describes(b, f) && !Complete(f)
    ensures Validate(b) == Err(Missing(Absent(AllKinds, f.Keys)))
  {
    PlaceComplete(b, f);
    var k: ShipKind :| k !in f;
    AbsentMembers(AllKinds, f.Keys, k);
    assert k == AllKinds[Rank(k)];
  }

  /** Piece k of a legal layout has no cell on the board exactly when the layout leaves it out. */
  lemma AbsentPieceNoCells(b: ShipBoard, f: Fleet, k: ShipKind)
    requires Describes(b, f)
    ensures k !in f <==> NoCells(b, k)
  {
    if k in f {
      StartHolds(b, f, k);
    }
  }

  /**
   * A Missing error names at least one piece; it names exactly the pieces
   * that have no cell on the board, in declaration order, and the pieces that
   * are on the board form a legal layout.
   */
  lemma MissingMeans(b: ShipBoard, ks: seq<ShipKind>)
    requires Validate(b) == Err(Missing(ks))
    ensures ks != [] && Ascending(ks)
    ensures forall k :: k in ks <==> NoCells(b, k)
    ensures Describes(b, Scan(b).value)
  {
    PlaceSound(b);
    var f := Scan(b).value;
    assert Validate(b) == (var m := Absent(AllKinds, f.Keys); if m == [] then Ok(f) else Err(Missing(m)));
    MissingOfLayout(b, f);
  }

  lemma MissingOfLayout(b: ShipBoard, f: Fleet)
    requires Describes(b, f)
    ensures Ascending(Absent(AllKinds, f.Keys))
    ensures forall k :: k in Absent(AllKinds, f.Keys) <==> NoCells(b, k)
  {
    forall k
      ensures k in Absent(AllKinds, f.Keys) <==> NoCells(b, k)
    {
      AbsentMembers(AllKinds, f.Keys, k);
      AbsentPieceNoCells(b, f, k);
      assert k == AllKinds[Rank(k)];
    }
    AbsentAscending(AllKinds, f.Keys);
  }

  /**
   * Any other refusal (a duplicate, an incomplete piece or one without room)
   * means that no arrangement of straight runs explains the board.
   */
  lemma RejectedHasNoLayout(b: ShipBoard, f: Fleet)
    requires Validate(b).Err? && !Validate(b).error.Missing?
    ensures !Describes(b, f)
  {
    if Describes(b, f) {
      PlaceComplete(b, f);
    }
  }

  // ---------------------------------------------------------------------------
  // Which defect each refusal names.

  /** c is the first cell of piece k in row-major order. */
  ghost predicate FirstOf(b: ShipBoard, k: ShipKind, c: Cell) {
    && At(b, c) == Some(k)
    && forall d :: At(b, d) == Some(k) ==> Index(c) <= Index(d)
  }

  /** A refusal of the pass is the refusal of one step, taken where the scan invariant holds. */
  lemma {:induction false} PlaceError(b: ShipBoard, i: nat, placed: Fleet) returns (j: nat, placed': Fleet)
    requires ScanInv(b, i, placed) && Place(b, i, placed).Err?
    ensures i <= j < 100 && ScanInv(b, j, placed')
    ensures Step(b, CellAt(j), placed') == Place(b, i, placed)
    decreases 100 - i
  {
    if Step(b, CellAt(i), placed).Err? {
      j, placed' := i, placed;
    } else {
      StepSound(b, i, placed);
      j, placed' := PlaceError(b, i + 1, Step(b, CellAt(i), placed).value);
    }
  }

  /** The step at which the pass refused a board. */
  lemma FailingStep(b: ShipBoard) returns (j: nat, placed: Fleet)
    requires Scan(b).Err?
    ensures j < 100 && ScanInv(b, j, placed)
    ensures Step(b, CellAt(j), placed) == Scan(b)
  {
    ScanStart(b);
    j, placed := PlaceError(b, 0, map[]);
  }

  /** A refusal other than Missing comes from the pass. */
  lemma RefusedByScan(b: ShipBoard)
    requires Validate(b).Err? && !Validate(b).error.Missing?
    ensures Scan(b) == Validate(b)
  {
  }

  /** When the step at cell j refuses a piece not yet matched, that cell is the piece's first. */
  lemma FirstUnmatched(b: ShipBoard, j: nat, placed: Fleet, k: ShipKind)
    requires j < 100 && ScanInv(b, j, placed) && At(b, CellAt(j)) == Some(k) && k !in placed
    ensures FirstOf(b, k, CellAt(j))
  {
    forall d | At(b, d) == Some(k)
      ensures Index(CellAt(j)) <= Index(d)
    {
    }
  }

  /**
   * Duplicate(k) names a piece of which there is more than one run's worth:
   * a whole run of k inside the board, and a further cell of k off that run
   * (a second placement, or a run longer than the piece).
   */
  lemma ValidateDuplicate(b: ShipBoard, k: ShipKind)
    requires Validate(b) == Err(Duplicate(k))
    ensures exists p: Placement, c: Cell ::
      Fits(p, Length(k)) && RunFilled(b, p, k) && At(b, c) == Some(k) && !OnRun(p, Length(k), c)
  {
    RefusedByScan(b);
    var j, placed := FailingStep(b);
    StepDuplicate(b, j, placed, k);
  }

  lemma StepDuplicate(b: ShipBoard, j: nat, placed: Fleet, k: ShipKind)
    requires j < 100 && ScanInv(b, j, placed) && Step(b, CellAt(j), placed) == Err(Duplicate(k))
    ensures exists p: Placement, c: Cell ::
      Fits(p, Length(k)) && RunFilled(b, p, k) && At(b, c) == Some(k) && !OnRun(p, Length(k), c)
  {
    var c := CellAt(j);
    var p := placed[k];
    assert Fits(p, Length(k)) && RunFilled(b, p, k) && At(b, c) == Some(k) && !OnRun(p, Length(k), c);
  }

  /** The run the pass reads from c: along x when the next cell along x holds k, otherwise along y. */
  function RunFrom(b: ShipBoard, k: ShipKind, c: Cell): Placement {
    Placement(c, At(b, Cell(c.x + 1, c.y)) == Some(k))
  }

  /**
   * NotEnoughSpace(k) names a piece whose run, from its first cell along the
   * direction the pass reads (the next cell there also holds k), would pass index 9.
   */
  lemma ValidateNotEnoughSpace(b: ShipBoard, k: ShipKind)
    requires Validate(b) == Err(NotEnoughSpace(k))
    ensures exists c: Cell {:trigger FirstOf(b, k, c)} ::
      && FirstOf(b, k, c)
      && At(b, CellOn(RunFrom(b, k, c), 1)) == Some(k)
      && !Fits(RunFrom(b, k, c), Length(k))
  {
    RefusedByScan(b);
    var j, placed := FailingStep(b);
    StepNotEnoughSpace(b, j, placed, k);
  }

  lemma StepNotEnoughSpace(b: ShipBoard, j: nat, placed: Fleet, k: ShipKind)
    requires j < 100 && ScanInv(b, j, placed) && Step(b, CellAt(j), placed) == Err(NotEnoughSpace(k))
    ensures exists c: Cell {:trigger FirstOf(b, k, c)} ::
      && FirstOf(b, k, c)
      && At(b, CellOn(RunFrom(b, k, c), 1)) == Some(k)
      && !Fits(RunFrom(b, k, c), Length(k))
  {
    var c := CellAt(j);
    FirstUnmatched(b, j, placed, k);
    assert At(b, CellOn(RunFrom(b, k, c), 1)) == Some(k);
  }

  /**
   * Incomplete(k) names a piece that, from its first cell, either continues in
   * neither direction, or fits along the direction it continues in but leaves
   * a cell of that run without k (a run shorter than the piece).
   */
  lemma ValidateIncomplete(b: ShipBoard, k: ShipKind)
    requires Validate(b) == Err(Incomplete(k))
    ensures exists c: Cell {:trigger FirstOf(b, k, c)} ::
      && FirstOf(b, k, c)
      && ((At(b, Cell(c.x + 1, c.y)) != Some(k) && At(b, Cell(c.x, c.y + 1)) != Some(k))
          || (Fits(RunFrom(b, k, c), Length(k)) && !RunFilled(b, RunFrom(b, k, c), k)))
  {
    RefusedByScan(b);
    var j, placed := FailingStep(b);
    var c := CellAt(j);
    IncompleteCases(b, c, placed, k);
    FirstUnmatched(b, j, placed, k);
    IncompleteAt(b, k, c);
  }

  /** Packs the facts about one cell into the existential of ValidateIncomplete. */
  lemma IncompleteAt(b: ShipBoard, k: ShipKind, c: Cell)
    requires FirstOf(b, k, c)
    requires || (At(b, Cell(c.x + 1, c.y)) != Some(k) && At(b, Cell(c.x, c.y + 1)) != Some(k))
             || (Fits(RunFrom(b, k, c), Length(k)) && !RunFilled(b, RunFrom(b, k, c), k))
    ensures exists d: Cell {:trigger FirstOf(b, k, d)} ::
      && FirstOf(b, k, d)
      && ((At(b, Cell(d.x + 1, d.y)) != Some(k) && At(b, Cell(d.x, d.y + 1)) != Some(k))
          || (Fits(RunFrom(b, k, d), Length(k)) && !RunFilled(b, RunFrom(b, k, d), k)))
  {
  }

  /** The two ways a step reports Incomplete, read off its branches. */
  lemma IncompleteCases(b: ShipBoard, c: Cell, placed: Fleet, k: ShipKind)
    requires Step(b, c, placed) == Err(Incomplete(k))
    ensures At(b, c) == Some(k) && k !in placed
    ensures || (At(b, Cell(c.x + 1, c.y)) != Some(k) && At(b, Cell(c.x, c.y + 1)) != Some(k))
            || (Fits(RunFrom(b, k, c), Length(k)) && !RunFilled(b, RunFrom(b, k, c), k))
  {
  }

  // ---------------------------------------------------------------------------
  // A board with a single piece.

  /**
   * A board holding only a Submarine down the first index from row 5, column 8
   * is refused as missing the other four pieces, listed in declaration order.
   */
  lemma LoneSubmarineMissing(b: ShipBoard)
    requires b.Keys == {Cell(5, 8), Cell(6, 8), Cell(7, 8)} && b.Values == {Submarine}
    ensures Validate(b) == Err(Missing([Destroyer, Cruiser, Battleship, Carrier]))
  {
    var f: Fleet := map[Submarine := Placement(Cell(5, 8), true)];
    LoneSubmarineLayout(b, f);
    assert Destroyer !in f;
    assert f.Keys == {Submarine};
    assert Absent(AllKinds, {Submarine}) == [Destroyer, Cruiser, Battleship, Carrier];
    ValidateMissing(b, f);
  }

  lemma LoneSubmarineLayout(b: ShipBoard, f: Fleet)
    requires b.Keys == {Cell(5, 8), Cell(6, 8), Cell(7, 8)} && b.Values == {Submarine}
    requires f == map[Submarine := Placement(Cell(5, 8), true)]
    ensures Describes(b, f)
  {
    forall c | c in b
      ensures b[c] == Submarine
    {
      assert b[c] in b.Values;
    }
    forall j | 0 <= j < Length(Submarine)
      ensures At(b, CellOn(f[Submarine], j)) == Some(Submarine)
    {
      assert j == 0 || j == 1 || j == 2;
    }
  }

  /**
   * The message list is the names joined by ", ": appending a piece to a
   * non-empty list appends the separator and its name.
   */
  lemma {:induction false} MissingListAppend(ks: seq<ShipKind>, k: ShipKind)
    ensures MissingList(ks + [k]) == if ks == [] then Name(k) else MissingList(ks) + ", " + Name(k)
  {
    if ks != [] {
      assert (ks + [k])[1..] == ks[1..] + [k];
      MissingListAppend(ks[1..], k);
    }
  }

  /** An accepted board is never the empty board. */
  lemma ValidNonEmpty(b: ShipBoard)
    ensures Validate(b).Ok? ==> b != map[]
  {
    if Validate(b).Ok? {
      var f := Validate(b).value;
      ValidateOk(b, f);
      StartHolds(b, f, Carrier);
    }
  }
}
