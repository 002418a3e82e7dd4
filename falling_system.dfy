/**
 * The falling pair of src/puzzle/falling_system.py: the geometry of the
 * pair, placement checks that leave the pair where it was, moving down and
 * sideways, turning with wall kicks, the hard drop and the lock that
 * writes the pair into the board, runs the chains and spawns the next pair.
 * y grows downward, as on the Python board.
 */
module PyFalling {
  import opened Wrappers
  import opened PyBoard
  import opened PyChains
  import opened PyLevels
  import opened PyRules
  import opened PyGrid

  // ---------------------------------------------------------------------
  // Geometry of the pair
  // ---------------------------------------------------------------------

  /** Where the sub puyo sits beside the main one, by rotation: above, right, below, left. */
  const RotationOffsets: seq<(int, int)> := [(0, -1), (1, 0), (0, 1), (-1, 0)]

  /**
   * The offset get_positions reads for a rotation. Python's rotation % 4 is
   * in [0, 4) for every integer, and so is Dafny's, so the two agree.
   */
  function SubOffset(rotation: int): (int, int) {
    RotationOffsets[rotation % 4]
  }

  /** get_positions on plain values: the main cell at (x, y) and the sub cell beside it. */
  function PairCells(x: int, y: int, rotation: int): (PuyoPosition, PuyoPosition) {
    (PuyoPosition(x, y), PuyoPosition(x + SubOffset(rotation).0, y + SubOffset(rotation).1))
  }

  /** The main cell is (x, y) and the sub cell is one of its four neighbours, never the main cell itself. */
  lemma PairCellsAdjacent(x: int, y: int, rotation: int)
    ensures PairCells(x, y, rotation).0 == PuyoPosition(x, y)
    ensures var s := PairCells(x, y, rotation).1;
      (s.x == x && (s.y == y - 1 || s.y == y + 1)) || (s.y == y && (s.x == x - 1 || s.x == x + 1))
    ensures PairCells(x, y, rotation).1 != PairCells(x, y, rotation).0
  {
    var r := rotation % 4;
    assert r == 0 || r == 1 || r == 2 || r == 3;
  }

  /** The quarter turn clockwise of an offset (y grows downward): above goes to right, right to below. */
  function QuarterTurn(d: (int, int)): (int, int) {
    (-d.1, d.0)
  }

  /** The rotation after one turn the given way, always in [0, 4). */
  function TurnedRotation(rotation: int, direction: RotationDirection): (r: int)
    ensures 0 <= r < 4
  {
    (rotation + direction.Value()) % 4
  }

  /** RotationDirection: CLOCKWISE = 1, COUNTER_CLOCKWISE = -1. */
  datatype RotationDirection = Clockwise | CounterClockwise {
    function Value(): (v: int)
      ensures v == 1 || v == -1
    {
      if this == Clockwise then 1 else -1
    }
  }

  /**
   * A clockwise turn moves the sub cell a quarter turn clockwise round the
   * main cell, a counter-clockwise turn moves it back, and the two undo
   * each other.
   */
  lemma TurnMovesSubCell(rotation: int)
    ensures SubOffset(TurnedRotation(rotation, Clockwise)) == QuarterTurn(SubOffset(rotation))
    ensures QuarterTurn(SubOffset(TurnedRotation(rotation, CounterClockwise))) == SubOffset(rotation)
    ensures TurnedRotation(TurnedRotation(rotation, Clockwise), CounterClockwise) == rotation % 4
  {
    var r := rotation % 4;
    assert rotation == 4 * (rotation / 4) + r;
    assert (rotation + 1) % 4 == (r + 1) % 4;
    assert (rotation - 1) % 4 == (r + 3) % 4;
    assert r == 0 || r == 1 || r == 2 || r == 3;
  }

  /** can_place on a board value: both cells of the pair can take a puyo. */
  predicate Fits(g: Grid, x: int, y: int, rotation: int) {
    Placeable(g, PairCells(x, y, rotation).0.x, PairCells(x, y, rotation).0.y) &&
    Placeable(g, PairCells(x, y, rotation).1.x, PairCells(x, y, rotation).1.y)
  }

  /** place_on_grid on a board value: the main colour, then the sub colour, written in. */
  function Placed(g: Grid, x: int, y: int, rotation: int, mainType: PuyoType, subType: PuyoType): Grid {
    Put(Put(g, PairCells(x, y, rotation).0, mainType), PairCells(x, y, rotation).1, subType)
  }

  /**
   * Placing a pair that fits writes exactly its two cells: the main colour
   * at the main cell, the sub colour at the sub cell, and every other cell
   * as it was; the board keeps its shape.
   */
  lemma PlacedCells(g: Grid, x: int, y: int, rotation: int, mainType: PuyoType, subType: PuyoType, p: PuyoPosition)
    requires Fits(g, x, y, rotation)
    ensures |Placed(g, x, y, rotation, mainType, subType)| == |g|
    ensures forall c :: 0 <= c < |g| ==> |Placed(g, x, y, rotation, mainType, subType)[c]| == |g[c]|
    ensures Get(Placed(g, x, y, rotation, mainType, subType), PairCells(x, y, rotation).0) == mainType
    ensures Get(Placed(g, x, y, rotation, mainType, subType), PairCells(x, y, rotation).1) == subType
    ensures p != PairCells(x, y, rotation).0 && p != PairCells(x, y, rotation).1 ==>
      Get(Placed(g, x, y, rotation, mainType, subType), p) == Get(g, p)
  {
    PairCellsAdjacent(x, y, rotation);
  }

  /** The pair fits nowhere off the top: a position whose sub cell is above row 0 never fits. */
  lemma FitsNeedsRoomAbove(g: Grid, x: int, y: int)
    requires y <= 0
    ensures !Fits(g, x, y, 0)
  {
  }

  // ---------------------------------------------------------------------
  // Wall kicks
  // ---------------------------------------------------------------------

  /** The kick offsets tried, in this order, after the turn in place fails. */
  const KickOffsets: seq<(int, int)> := [(-1, 0), (1, 0), (0, -1), (-1, -1), (1, -1)]

  /** The first of the offsets, added to (x, y), at which the pair fits with rotation r; None when none does. */
  function FirstFitting(g: Grid, x: int, y: int, r: int, offsets: seq<(int, int)>): (t: Option<(int, int)>)
    ensures t.Some? ==> Fits(g, t.value.0, t.value.1, r)
    decreases |offsets|
  {
    if offsets == [] then None
    else if Fits(g, x + offsets[0].0, y + offsets[0].1, r) then Some((x + offsets[0].0, y + offsets[0].1))
    else FirstFitting(g, x, y, r, offsets[1..])
  }

  /** Where a turn to rotation r lands the pair at (x, y): in place if it fits there, else at the first kick that fits. */
  function RotationTarget(g: Grid, x: int, y: int, r: int): (t: Option<(int, int)>)
    ensures t.Some? ==> Fits(g, t.value.0, t.value.1, r)
  {
    if Fits(g, x, y, r) then Some((x, y)) else FirstFitting(g, x, y, r, KickOffsets)
  }

  /** One step of FirstFitting on a suffix: the offset at i if it fits, else the search goes on from i + 1. */
  lemma FirstFittingStep(g: Grid, x: int, y: int, r: int, offsets: seq<(int, int)>, i: nat)
    requires i < |offsets|
    ensures FirstFitting(g, x, y, r, offsets[i..]) ==
      if Fits(g, x + offsets[i].0, y + offsets[i].1, r) then Some((x + offsets[i].0, y + offsets[i].1))
      else FirstFitting(g, x, y, r, offsets[i + 1..])
  {
    assert offsets[i..][0] == offsets[i];
    assert offsets[i..][1..] == offsets[i + 1..];
  }

  /**
   * FirstFitting picks offset i exactly when it fits and no earlier one
   * does, and gives None exactly when no offset fits.
   */
  lemma {:induction false} FirstFittingPicksFirst(g: Grid, x: int, y: int, r: int, offsets: seq<(int, int)>, from: nat, i: nat)
    requires from <= i <= |offsets|
    requires forall j :: from <= j < i ==> !Fits(g, x + offsets[j].0, y + offsets[j].1, r)
    requires i < |offsets| ==> Fits(g, x + offsets[i].0, y + offsets[i].1, r)
    ensures FirstFitting(g, x, y, r, offsets[from..]) ==
      if i < |offsets| then Some((x + offsets[i].0, y + offsets[i].1)) else None
    decreases i - from
  {
    if from < i {
      FirstFittingStep(g, x, y, r, offsets, from);
      FirstFittingPicksFirst(g, x, y, r, offsets, from + 1, i);
    } else if i < |offsets| {
      FirstFittingStep(g, x, y, r, offsets, i);
    } else {
      assert offsets[from..] == [];
    }
  }

  // ---------------------------------------------------------------------
  // The chain run that follows a lock
  // ---------------------------------------------------------------------

  /**
   * boards and levels are a run of execute_full_chain_sequence from
   * `placed`: gravity first, then level after level, ending on `final`,
   * where nothing is left to pop.
   */
  ghost predicate Resolves(placed: Grid, boards: seq<Grid>, levels: seq<seq<ChainResult>>, final: Grid) {
    Cascade(boards, levels) && boards[0] == Gravity(placed) && final == boards[|levels|] && Poppable(final) == {}
  }

  /**
   * A run eliminates at least MIN_CHAIN_LENGTH puyos per level, so it
   * eliminates nothing exactly when it has no level, and then it scores nothing.
   */
  lemma NothingEliminatedIffNoLevel(boards: seq<Grid>, levels: seq<seq<ChainResult>>)
    requires Cascade(boards, levels) && Found(boards, levels)
    ensures CascadeEliminated(boards, levels) >= MinChainLength * |levels|
    ensures CascadeEliminated(boards, levels) == 0 <==> levels == []
    ensures levels == [] ==> CascadeScore(levels) == 0
  {
    CascadeConserves(boards, levels);
    CascadeBounded(boards, levels);
  }

  // ---------------------------------------------------------------------
  // The pair and the system
  // ---------------------------------------------------------------------

  /** The two colours the puyo bag hands out for one pair. */
  datatype PairColours = PairColours(main: PuyoType, sub: PuyoType)

  /** The column new pairs appear in (GRID_WIDTH // 2). */
  const SpawnColumn: int := GridWidth / 2

  /** FallingPuyo: two colours, and a position and rotation the system changes in place. */
  class FallingPuyo {
    const mainType: PuyoType
    const subType: PuyoType
    var x: int
    var y: int
    var rotation: int

    constructor(mainType: PuyoType, subType: PuyoType, x: int, y: int, rotation: int)
      ensures this.mainType == mainType && this.subType == subType
      ensures this.x == x && this.y == y && this.rotation == rotation
    {
      this.mainType := mainType;
      this.subType := subType;
      this.x := x;
      this.y := y;
      this.rotation := rotation;
    }

    /** get_positions: the main cell and the sub cell at the current position and rotation. */
    function GetPositions(): (PuyoPosition, PuyoPosition)
      reads this
    {
      PairCells(x, y, rotation)
    }

    /** can_place: both cells pass can_place_puyo on the grid. */
    predicate CanPlace(grid: PuyoGrid)
      requires grid.Valid()
      reads this, grid, grid.grid
      ensures CanPlace(grid) <==> Fits(grid.Cells(), x, y, rotation)
    {
      grid.CanPlacePuyo(GetPositions().0.x, GetPositions().0.y) &&
      grid.CanPlacePuyo(GetPositions().1.x, GetPositions().1.y)
    }

    /**
     * can_move_to: moves the pair to the new position (and rotation, when
     * one is given) only to ask can_place, and puts it back.
     */
    method CanMoveTo(grid: PuyoGrid, ghost g: Grid, newX: int, newY: int, newRotation: Option<int>) returns (canPlace: bool)
      requires grid.Valid() && g == grid.Cells()
      modifies this
      ensures x == old(x) && y == old(y) && rotation == old(rotation)
      ensures canPlace <==> Fits(g, newX, newY, if newRotation.Some? then newRotation.value else rotation)
    {
      var originalX, originalY, originalRotation := x, y, rotation;
      x := newX;
      y := newY;
      if newRotation.Some? {
        rotation := newRotation.value;
      }
      canPlace := CanPlace(grid);
      x, y, rotation := originalX, originalY, originalRotation;
    }

    /** place_on_grid: both cells written when both can take a puyo, nothing written otherwise. */
    method PlaceOnGrid(grid: PuyoGrid) returns (ok: bool)
      requires grid.Valid()
      modifies grid.grid
      ensures ok <==> Fits(old(grid.Cells()), x, y, rotation)
      ensures grid.Cells() == if ok then Placed(old(grid.Cells()), x, y, rotation, mainType, subType) else old(grid.Cells())
    {
      if !CanPlace(grid) {
        return false;
      }
      var mainPos, subPos := GetPositions().0, GetPositions().1;
      var _ := grid.SetPuyo(mainPos.x, mainPos.y, mainType);
      var _ := grid.SetPuyo(subPos.x, subPos.y, subType);
      ok := true;
    }
  }

  /**
   * FallingSystem: the grid, the pair in play and the one after it, the
   * lock state, the score totals, and whether the game goes on.
   */
  class FallingSystem {
    const grid: PuyoGrid
    var currentPuyo: FallingPuyo?
    var nextPuyo: FallingPuyo?
    var gameActive: bool
    var puyoLocked: bool
    var lockTimer: real
    var totalScore: int
    var linesCleared: int
    var initialized: bool

    ghost predicate Valid()
      reads this, grid
    {
      grid.Valid()
    }

    /**
     * __init__ followed by its first spawn: the first pair in the spawn
     * column at the top, the second waiting, no playability check yet.
     */
    constructor(grid: PuyoGrid, first: PairColours, second: PairColours)
      requires grid.Valid()
      ensures Valid() && this.grid == grid
      ensures currentPuyo != null && fresh(currentPuyo)
      ensures currentPuyo.mainType == first.main && currentPuyo.subType == first.sub
      ensures currentPuyo.x == SpawnColumn && currentPuyo.y == 0 && currentPuyo.rotation == 0
      ensures nextPuyo != null && fresh(nextPuyo) && nextPuyo != currentPuyo
      ensures nextPuyo.mainType == second.main && nextPuyo.subType == second.sub
      ensures gameActive && !puyoLocked && lockTimer == 0.0 && initialized
      ensures totalScore == 0 && linesCleared == 0
    {
      this.grid := grid;
      currentPuyo := new FallingPuyo(first.main, first.sub, SpawnColumn, 0, 0);
      nextPuyo := new FallingPuyo(second.main, second.sub, 0, 0, 0);
      gameActive := true;
      puyoLocked := false;
      lockTimer := 0.0;
      totalScore := 0;
      linesCleared := 0;
      initialized := true;
    }

    /** _try_move_down: one row down when the pair fits there; otherwise nothing changes. */
    method TryMoveDown() returns (moved: bool)
      requires Valid()
      modifies currentPuyo
      ensures currentPuyo == null ==> !moved
      ensures currentPuyo != null ==>
        (moved <==> Fits(grid.Cells(), old(currentPuyo.x), old(currentPuyo.y) + 1, old(currentPuyo.rotation))) &&
        currentPuyo.x == old(currentPuyo.x) && currentPuyo.rotation == old(currentPuyo.rotation) &&
        currentPuyo.y == old(currentPuyo.y) + (if moved then 1 else 0)
    {
      if currentPuyo == null {
        return false;
      }
      moved := currentPuyo.CanMoveTo(grid, grid.Cells(), currentPuyo.x, currentPuyo.y + 1, None);
      if moved {
        currentPuyo.y := currentPuyo.y + 1;
      }
    }

    /**
     * _try_move_horizontal: one column over when the pair fits there; a
     * locked pair that can then fall a row falls and is unlocked. A move that
     * does not fit changes nothing.
     */
    method TryMoveHorizontal(direction: int) returns (moved: bool)
      requires Valid()
      modifies this, currentPuyo
      ensures currentPuyo == old(currentPuyo) && nextPuyo == old(nextPuyo)
      ensures gameActive == old(gameActive) && initialized == old(initialized)
      ensures totalScore == old(totalScore) && linesCleared == old(linesCleared)
      ensures currentPuyo == null ==> !moved && puyoLocked == old(puyoLocked) && lockTimer == old(lockTimer)
      ensures currentPuyo != null ==>
        var g, x0, y0, r0 := grid.Cells(), old(currentPuyo.x), old(currentPuyo.y), old(currentPuyo.rotation);
        var fell := moved && old(puyoLocked) && Fits(g, x0 + direction, y0 + 1, r0);
        (moved <==> Fits(g, x0 + direction, y0, r0)) &&
        currentPuyo.x == (if moved then x0 + direction else x0) &&
        currentPuyo.y == (if fell then y0 + 1 else y0) &&
        currentPuyo.rotation == r0 &&
        puyoLocked == (old(puyoLocked) && !fell) &&
        lockTimer == (if fell then 0.0 else old(lockTimer))
    {
      if currentPuyo == null {
        return false;
      }
      var newX := currentPuyo.x + direction;
      moved := currentPuyo.CanMoveTo(grid, grid.Cells(), newX, currentPuyo.y, None);
      if moved {
        currentPuyo.x := newX;
        if puyoLocked {
          var fell := TryMoveDown();
          if fell {
            puyoLocked := false;
            lockTimer := 0.0;
          }
        }
      }
    }

    /**
     * _try_rotate: the turned rotation is tried in place and then at each
     * kick offset in order, and the first that fits is committed (so the
     * pair ends where it fits). A turn that fits nowhere changes nothing.
     */
    method TryRotate(direction: RotationDirection) returns (rotated: bool)
      requires Valid()
      modifies currentPuyo
      ensures currentPuyo == null ==> !rotated
      ensures currentPuyo != null ==>
        var r := TurnedRotation(old(currentPuyo.rotation), direction);
        var target := RotationTarget(grid.Cells(), old(currentPuyo.x), old(currentPuyo.y), r);
        (rotated <==> target.Some?) &&
        (rotated ==> (currentPuyo.x, currentPuyo.y) == target.value && currentPuyo.rotation == r) &&
        (!rotated ==>
          currentPuyo.x == old(currentPuyo.x) && currentPuyo.y == old(currentPuyo.y) &&
          currentPuyo.rotation == old(currentPuyo.rotation))
    {
      if currentPuyo == null {
        return false;
      }
      var newRotation := (currentPuyo.rotation + direction.Value()) % 4;
      ghost var g, x0, y0 := grid.Cells(), currentPuyo.x, currentPuyo.y;
      assert newRotation == TurnedRotation(old(currentPuyo.rotation), direction);
      var inPlace := currentPuyo.CanMoveTo(grid, g, currentPuyo.x, currentPuyo.y, Some(newRotation));
      if inPlace {
        currentPuyo.rotation := newRotation;
        return true;
      }
      rotated := TryKicks(g, newRotation, KickOffsets);
    }

    /**
     * The wall-kick loop of _try_rotate: the offsets in order, the first at
     * which the turned pair fits committed, nothing changed when none fits.
     */
    method TryKicks(ghost g: Grid, newRotation: int, kicks: seq<(int, int)>) returns (kicked: bool)
      requires Valid() && currentPuyo != null && g == grid.Cells()
      modifies currentPuyo
      ensures var target := FirstFitting(g, old(currentPuyo.x), old(currentPuyo.y), newRotation, kicks);
        (kicked <==> target.Some?) &&
        (kicked ==> (currentPuyo.x, currentPuyo.y) == target.value && currentPuyo.rotation == newRotation) &&
        (!kicked ==>
          currentPuyo.x == old(currentPuyo.x) && currentPuyo.y == old(currentPuyo.y) &&
          currentPuyo.rotation == old(currentPuyo.rotation))
    {
      ghost var x0, y0 := currentPuyo.x, currentPuyo.y;
      ghost var target := FirstFitting(g, x0, y0, newRotation, kicks);
      assert kicks[0..] == kicks;
      for i := 0 to |kicks|
        invariant currentPuyo.x == x0 && currentPuyo.y == y0 && currentPuyo.rotation == old(currentPuyo.rotation)
        invariant target == FirstFitting(g, x0, y0, newRotation, kicks[i..])
      {
        var testX := currentPuyo.x + kicks[i].0;
        var testY := currentPuyo.y + kicks[i].1;
        var fits := currentPuyo.CanMoveTo(grid, g, testX, testY, Some(newRotation));
        assert fits == Fits(g, x0 + kicks[i].0, y0 + kicks[i].1, newRotation);
        FirstFittingStep(g, x0, y0, newRotation, kicks, i);
        if fits {
          currentPuyo.x := testX;
          currentPuyo.y := testY;
          currentPuyo.rotation := newRotation;
          return true;
        }
      }
      assert kicks[|kicks|..] == [];
      kicked := false;
    }

    /**
     * _spawn_next_puyo: the waiting pair (a new one from `first` when there
     * is none) moves to the spawn column at the top with rotation 0, a new
     * pair from `second` waits, and once the system is initialised a pair
     * that does not fit there ends the game.
     */
    method SpawnNextPuyo(first: PairColours, second: PairColours)
      requires Valid()
      modifies this, nextPuyo
      ensures Valid() && totalScore == old(totalScore) && linesCleared == old(linesCleared)
      ensures currentPuyo != null
      ensures old(nextPuyo) != null ==> currentPuyo == old(nextPuyo)
      ensures old(nextPuyo) != null ==>
        currentPuyo.mainType == old(nextPuyo.mainType) && currentPuyo.subType == old(nextPuyo.subType)
      ensures old(nextPuyo) == null ==> fresh(currentPuyo) && currentPuyo.mainType == first.main && currentPuyo.subType == first.sub
      ensures currentPuyo.x == SpawnColumn && currentPuyo.y == 0 && currentPuyo.rotation == 0
      ensures nextPuyo != null && fresh(nextPuyo)
      ensures nextPuyo.mainType == second.main && nextPuyo.subType == second.sub
      ensures var blocked := old(initialized) && !Fits(grid.Cells(), SpawnColumn, 0, 0);
        gameActive == (old(gameActive) && !blocked) &&
        initialized &&
        puyoLocked == (if blocked then old(puyoLocked) else false) &&
        lockTimer == (if blocked then old(lockTimer) else 0.0)
    {
      if nextPuyo == null {
        nextPuyo := new FallingPuyo(first.main, first.sub, 0, 0, 0);
      }
      currentPuyo := nextPuyo;
      currentPuyo.x := SpawnColumn;
      currentPuyo.y := 0;
      currentPuyo.rotation := 0;
      nextPuyo := new FallingPuyo(second.main, second.sub, 0, 0, 0);
      if initialized && !currentPuyo.CanPlace(grid) {
        gameActive := false;
        return;
      }
      initialized := true;
      puyoLocked := false;
      lockTimer := 0.0;
    }

    /**
     * The chain part of _lock_current_puyo: the chains are run to the end
     * and, when anything was eliminated, the score and the eliminated count
     * are added to the totals. No other field of the system changes.
     */
    method RunChains() returns (ghost boards: seq<Grid>, ghost levels: seq<seq<ChainResult>>)
      requires Valid()
      modifies this, grid, grid.grid
      ensures Valid()
      ensures Resolves(old(grid.Cells()), boards, levels, grid.Cells())
      ensures totalScore == old(totalScore) + CascadeScore(levels)
      ensures linesCleared == old(linesCleared) + CascadeEliminated(boards, levels)
      ensures currentPuyo == old(currentPuyo) && nextPuyo == old(nextPuyo) && gameActive == old(gameActive)
      ensures puyoLocked == old(puyoLocked) && lockTimer == old(lockTimer) && initialized == old(initialized)
    {
      var score, eliminated;
      score, eliminated, boards, levels := grid.ExecuteFullChainSequence();
      assert eliminated >= 0 && (eliminated == 0 ==> score == 0) by {
        NothingEliminatedIffNoLevel(boards, levels);
      }
      if eliminated > 0 {
        totalScore := totalScore + score;
        linesCleared := linesCleared + eliminated;
      }
    }

    /**
     * _lock_current_puyo: a pair that fits is written into the grid, the
     * chains are run to the end, their score and eliminated count are added
     * to the totals, and the next pair spawns; a pair that does not fit ends
     * the game and nothing else changes.
     */
    method LockCurrentPuyo(first: PairColours, second: PairColours)
      returns (placed: bool, ghost boards: seq<Grid>, ghost levels: seq<seq<ChainResult>>)
      requires Valid()
      modifies this, grid, grid.grid, currentPuyo, nextPuyo
      ensures Valid()
      ensures old(currentPuyo) == null ==> !placed && grid.Cells() == old(grid.Cells()) && gameActive == old(gameActive)
      ensures old(currentPuyo) != null ==>
        placed == Fits(old(grid.Cells()), old(currentPuyo.x), old(currentPuyo.y), old(currentPuyo.rotation))
      ensures !placed ==>
        grid.Cells() == old(grid.Cells()) && totalScore == old(totalScore) && linesCleared == old(linesCleared) &&
        currentPuyo == old(currentPuyo) && nextPuyo == old(nextPuyo)
      ensures !placed && old(currentPuyo) != null ==> !gameActive
      ensures placed ==>
        Resolves(Placed(old(grid.Cells()), old(currentPuyo.x), old(currentPuyo.y), old(currentPuyo.rotation),
                        old(currentPuyo.mainType), old(currentPuyo.subType)), boards, levels, grid.Cells()) &&
        totalScore == old(totalScore) + CascadeScore(levels) &&
        linesCleared == old(linesCleared) + CascadeEliminated(boards, levels) &&
        currentPuyo != null && currentPuyo.x == SpawnColumn && currentPuyo.y == 0 && currentPuyo.rotation == 0
      ensures placed ==>
        (old(nextPuyo) != null ==>
          currentPuyo == old(nextPuyo) &&
          currentPuyo.mainType == old(nextPuyo.mainType) && currentPuyo.subType == old(nextPuyo.subType)) &&
        (old(nextPuyo) == null ==> fresh(currentPuyo) && currentPuyo.mainType == first.main && currentPuyo.subType == first.sub) &&
        nextPuyo != null && fresh(nextPuyo) && nextPuyo.mainType == second.main && nextPuyo.subType == second.sub
      ensures placed ==>
        var blocked := old(initialized) && !Fits(grid.Cells(), SpawnColumn, 0, 0);
        gameActive == (old(gameActive) && !blocked) &&
        initialized &&
        puyoLocked == (if blocked then old(puyoLocked) else false) &&
        lockTimer == (if blocked then old(lockTimer) else 0.0)
    {
      boards, levels := [old(grid.Cells())], [];
      if currentPuyo == null {
        return false, boards, levels;
      }
      ghost var g0 := grid.Cells();
      ghost var pair := currentPuyo;
      placed := currentPuyo.PlaceOnGrid(grid);
      if placed {
        assert grid.Cells() == Placed(g0, pair.x, pair.y, pair.rotation, pair.mainType, pair.subType);
        boards, levels := RunChains();
        ghost var g2 := grid.Cells();
        SpawnNextPuyo(first, second);
        assert grid.Cells() == g2;
      } else {
        gameActive := false;
      }
    }

    /**
     * The loop of _hard_drop: the pair moves down one row at a time while
     * it fits there, so it stops on the first row from which it cannot fall.
     */
    method DropToFloor() returns (dropDistance: nat)
      requires Valid() && currentPuyo != null
      modifies currentPuyo
      ensures currentPuyo.x == old(currentPuyo.x) && currentPuyo.rotation == old(currentPuyo.rotation)
      ensures currentPuyo.y == old(currentPuyo.y) + dropDistance
      ensures forall k :: old(currentPuyo.y) < k <= currentPuyo.y ==>
        Fits(grid.Cells(), currentPuyo.x, k, currentPuyo.rotation)
      ensures !Fits(grid.Cells(), currentPuyo.x, currentPuyo.y + 1, currentPuyo.rotation)
    {
      ghost var g, x0, y0, r0 := grid.Cells(), currentPuyo.x, currentPuyo.y, currentPuyo.rotation;
      dropDistance := 0;
      while true
        invariant currentPuyo.x == x0 && currentPuyo.rotation == r0 && currentPuyo.y == y0 + dropDistance
        invariant forall k :: y0 < k <= currentPuyo.y ==> Fits(g, x0, k, r0)
        decreases grid.height - currentPuyo.y
      {
        var moved := TryMoveDown();
        if !moved {
          break;
        }
        dropDistance := dropDistance + 1;
      }
    }

    /**
     * _hard_drop: the pair moves down while it fits one row lower, so it
     * stops where it can fall no further; when it moved at all it is locked,
     * and the lock always succeeds, since the pair fits where it stopped.
     * landedY is where it stopped.
     */
    method HardDrop(first: PairColours, second: PairColours)
      returns (ghost landedY: int, ghost boards: seq<Grid>, ghost levels: seq<seq<ChainResult>>)
      requires Valid()
      modifies this, grid, grid.grid, currentPuyo, nextPuyo
      ensures Valid()
      ensures old(currentPuyo) == null ==> grid.Cells() == old(grid.Cells()) && currentPuyo == null
      ensures old(currentPuyo) != null ==>
        var g, x0, y0, r0 := old(grid.Cells()), old(currentPuyo.x), old(currentPuyo.y), old(currentPuyo.rotation);
        y0 <= landedY &&
        (forall k :: y0 < k <= landedY ==> Fits(g, x0, k, r0)) &&
        !Fits(g, x0, landedY + 1, r0) &&
        (landedY == y0 ==>
          grid.Cells() == g && currentPuyo == old(currentPuyo) &&
          currentPuyo.x == x0 && currentPuyo.y == y0 && currentPuyo.rotation == r0 &&
          totalScore == old(totalScore) && linesCleared == old(linesCleared) && gameActive == old(gameActive)) &&
        (landedY > y0 ==>
          Resolves(Placed(g, x0, landedY, r0, old(currentPuyo.mainType), old(currentPuyo.subType)), boards, levels, grid.Cells()) &&
          totalScore == old(totalScore) + CascadeScore(levels) &&
          linesCleared == old(linesCleared) + CascadeEliminated(boards, levels))
    {
      boards, levels := [grid.Cells()], [];
      if currentPuyo == null {
        return 0, boards, levels;
      }
      var dropDistance := DropToFloor();
      landedY := currentPuyo.y;
      if dropDistance > 0 {
        var placed;
        placed, boards, levels := LockCurrentPuyo(first, second);
      }
    }
  }

  // ---------------------------------------------------------------------
  // Where a new pair appears
  // ---------------------------------------------------------------------

  /**
   * As written, a new pair appears with its main cell in row 0 and rotation
   * 0, which puts the sub cell in row -1: the pair never fits, so every
   * spawn after the first ends the game.
   */
  lemma SpawnNeverFits(g: Grid)
    ensures !Fits(g, SpawnColumn, 0, 0)
  {
  }

  /** The spawn row the game-over test assumes: main cell in row 1, sub cell in row 0. */
  const CorrectedSpawnRow: int := 1

  /**
   * With the main cell in row 1 a new pair fits exactly when the first two
   * game-over rules do not fire, so on a board that is not over it fits.
   */
  lemma CorrectedSpawnFits(g: Grid)
    requires |g| == GridWidth
    ensures Fits(g, SpawnColumn, CorrectedSpawnRow, 0) <==> Placeable(g, SpawnX(g), 1) && Placeable(g, SpawnX(g), 0)
    ensures !AuthenticGameOver(g) ==> Fits(g, SpawnColumn, CorrectedSpawnRow, 0)
  {
  }
}
