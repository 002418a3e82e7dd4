/**
 * The falling pair of the C# game (Scripts/Battle/FallingPuyo.cs): an
 * anchor cell at the current position and a satellite cell beside it
 * chosen by the rotation, moved and rotated against the board, pulled
 * down by a timer, and written into the board when it can fall no more.
 */
module FallingPair {
  import opened PuyoTypes
  import opened Wrappers
  import opened PuzzleBoard
  import PuzzleChains

  /** The satellite offsets, indexed by rotation: up, right, down, left. */
  const Offsets: seq<Pos> := [Up, Right, Down, Left]

  /** The anchor cell is the base position itself, whatever the rotation. */
  function Puyo1Position(basePos: Pos, rot: int): Pos
  {
    basePos
  }

  /** The satellite cell; the source indexes its offset table with rot. */
  function Puyo2Position(basePos: Pos, rot: int): (p: Pos)
    requires 0 <= rot < 4
    ensures Adjacent(Puyo1Position(basePos, rot), p)
  {
    basePos.Plus(Offsets[rot])
  }

  /** The rotation after one clockwise turn: always in [0, 4) again. */
  function NextRotation(rot: int): (r: int)
    ensures 0 <= r < 4
    ensures r == (rot + 1) % 4
  {
    (rot + 1) % 4
  }

  /** Each rotation puts the satellite on a different side, and opposite rotations on opposite sides. */
  lemma SatelliteSides(basePos: Pos, r: int, s: int)
    requires 0 <= r < 4 && 0 <= s < 4
    ensures r != s ==> Puyo2Position(basePos, r) != Puyo2Position(basePos, s)
    ensures Puyo2Position(basePos, r) != Puyo1Position(basePos, r)
    ensures s == (r + 2) % 4 ==>
      Puyo2Position(basePos, r).Plus(Puyo2Position(basePos, s)) == basePos.Plus(basePos)
  {
  }

  /** Four turns bring any rotation in [0, 4) back to itself. */
  lemma FourTurns(rot: int)
    requires 0 <= rot < 4
    ensures NextRotation(NextRotation(NextRotation(NextRotation(rot)))) == rot
  {
  }

  /** A cell the pair may occupy: on the board and empty. */
  predicate Free(b: Board, p: Pos) {
    OnBoard(b, p) && b[p.x][p.y].IsEmpty()
  }

  /** Both cells of the pair at basePos with rotation rot may be occupied. */
  predicate Fits(b: Board, basePos: Pos, rot: int)
    requires 0 <= rot < 4
  {
    Free(b, Puyo1Position(basePos, rot)) && Free(b, Puyo2Position(basePos, rot))
  }

  /**
   * Where a turn from rot at cur lands the pair: in place, else one cell
   * left, else one cell right, whichever fits first; None when none does.
   */
  function RotationTarget(b: Board, cur: Pos, rot: int): (r: Option<Pos>)
    ensures r.Some? ==> Fits(b, r.value, NextRotation(rot))
    ensures r.Some? ==> r.value in {cur, cur.Plus(Left), cur.Plus(Right)}
    ensures r.None? <==>
      !Fits(b, cur, NextRotation(rot)) && !Fits(b, cur.Plus(Left), NextRotation(rot)) &&
      !Fits(b, cur.Plus(Right), NextRotation(rot))
    ensures r == Some(cur.Plus(Left)) ==> !Fits(b, cur, NextRotation(rot))
    ensures r == Some(cur.Plus(Right)) ==> !Fits(b, cur, NextRotation(rot)) && !Fits(b, cur.Plus(Left), NextRotation(rot))
  {
    var nr := NextRotation(rot);
    if Fits(b, cur, nr) then Some(cur)
    else if Fits(b, cur.Plus(Left), nr) then Some(cur.Plus(Left))
    else if Fits(b, cur.Plus(Right), nr) then Some(cur.Plus(Right))
    else None
  }

  /** The board after landing: both cells written as Landed, each recording its own position. */
  function LandedBoard(b: Board, p1: Pos, d1: PuyoData, p2: Pos, d2: PuyoData): Board {
    SetCell(SetCell(b, p1, d1.(state := Landed, gridPosition := p1)), p2, d2.(state := Landed, gridPosition := p2))
  }

  /**
   * Landing keeps the board's shape, makes both coloured cells that are on the
   * board matchable in place, and leaves every other cell as it was.
   */
  lemma LandedCells(b: Board, p1: Pos, d1: PuyoData, p2: Pos, d2: PuyoData)
    requires p1 != p2
    ensures |LandedBoard(b, p1, d1, p2, d2)| == |b|
    ensures forall x :: 0 <= x < |b| ==> |LandedBoard(b, p1, d1, p2, d2)[x]| == |b[x]|
    ensures OnBoard(b, p1) ==> LandedBoard(b, p1, d1, p2, d2)[p1.x][p1.y] == d1.(state := Landed, gridPosition := p1)
    ensures OnBoard(b, p2) ==> LandedBoard(b, p1, d1, p2, d2)[p2.x][p2.y] == d2.(state := Landed, gridPosition := p2)
    ensures OnBoard(b, p1) && d1.color != Empty ==> LandedBoard(b, p1, d1, p2, d2)[p1.x][p1.y].CanMatch()
    ensures OnBoard(b, p2) && d2.color != Empty ==> LandedBoard(b, p1, d1, p2, d2)[p2.x][p2.y].CanMatch()
    ensures forall q :: OnBoard(b, q) && q != p1 && q != p2 ==> LandedBoard(b, p1, d1, p2, d2)[q.x][q.y] == b[q.x][q.y]
  {
  }

  /** The pair under the player's control; rotation indexes Offsets. */
  class FallingPuyo {
    const grid: PuzzleGrid
    /** The scene's PuzzleManager, or null when there is none. */
    const manager: PuzzleChains.PuzzleManager?
    /** config.fallSpeed: cells per second. */
    const fallSpeed: real
    /** config.fastFallMultiplier. */
    const fastFallMultiplier: real
    var puyoData1: PuyoData
    var puyoData2: PuyoData
    var currentPosition: Pos
    var rotation: int
    var fallTimer: real
    var isControlled: bool

    ghost predicate Valid()
      reads this, grid, grid.grid
    {
      grid.Valid() && 0 <= rotation < 4 && (manager != null ==> manager.grid == grid)
    }

    /** Start and Initialize: the pair appears at (W/2, H-1), upright, with two fresh cells. */
    constructor (grid: PuzzleGrid, manager: PuzzleChains.PuzzleManager?, fallSpeed: real,
                 fastFallMultiplier: real, color1: PuyoColor, color2: PuyoColor)
      requires grid.Valid()
      requires manager != null ==> manager.grid == grid
      ensures Valid()
      ensures this.grid == grid && this.manager == manager
      ensures this.fallSpeed == fallSpeed && this.fastFallMultiplier == fastFallMultiplier
      ensures currentPosition == Pos(grid.width / 2, grid.height as int - 1)
      ensures rotation == 0 && fallTimer == 0.0 && isControlled
      ensures puyoData1 == NewPuyoData(color1, Pos(0, 0)) && puyoData2 == NewPuyoData(color2, Pos(0, 0))
    {
      this.grid := grid;
      this.manager := manager;
      this.fallSpeed := fallSpeed;
      this.fastFallMultiplier := fastFallMultiplier;
      currentPosition := Pos(grid.width / 2, grid.height as int - 1);
      rotation := 0;
      fallTimer := 0.0;
      isControlled := true;
      puyoData1 := NewPuyoData(color1, Pos(0, 0));
      puyoData2 := NewPuyoData(color2, Pos(0, 0));
    }

    /** A cell the pair may occupy: on the board, not below row 0, and empty. */
    predicate CanMoveTo(pos: Pos)
      requires grid.Valid()
      reads grid, grid.grid
      ensures CanMoveTo(pos) <==> Free(grid.Board(), pos)
    {
      grid.IsValidPosition(pos) && pos.y >= 0 && grid.IsPositionEmpty(pos)
    }

    /** The row test in CanMoveTo is implied by the bounds test: it is the board's own emptiness test. */
    lemma CanMoveToIsPositionEmpty(pos: Pos)
      requires grid.Valid()
      ensures CanMoveTo(pos) <==> grid.IsPositionEmpty(pos)
    {
    }

    /** Moves the pair by direction when both target cells are free; otherwise nothing changes. */
    method TryMove(direction: Pos) returns (moved: bool)
      requires Valid()
      modifies this
      ensures Valid()
      ensures moved <==> Fits(old(grid.Board()), old(currentPosition).Plus(direction), old(rotation))
      ensures currentPosition == if moved then old(currentPosition).Plus(direction) else old(currentPosition)
      ensures rotation == old(rotation) && fallTimer == old(fallTimer) && isControlled == old(isControlled) &&
              puyoData1 == old(puyoData1) && puyoData2 == old(puyoData2)
    {
      var newPos := currentPosition.Plus(direction);
      var puyo1Pos := Puyo1Position(newPos, rotation);
      var puyo2Pos := Puyo2Position(newPos, rotation);
      if CanMoveTo(puyo1Pos) && CanMoveTo(puyo2Pos) {
        currentPosition := newPos;
        return true;
      }
      return false;
    }

    /** Both cells of the pair at pos turned to rot pass CanMoveTo. */
    predicate PairFits(pos: Pos, rot: int)
      requires grid.Valid() && 0 <= rot < 4
      reads grid, grid.grid
      ensures PairFits(pos, rot) <==> Fits(grid.Board(), pos, rot)
    {
      CanMoveTo(Puyo1Position(pos, rot)) && CanMoveTo(Puyo2Position(pos, rot))
    }

    /** The kick loop of TryRotate: the first of one cell left and one cell right where the pair fits turned to newRotation. */
    method FindKick(newRotation: int) returns (kicked: Option<Pos>)
      requires Valid() && 0 <= newRotation < 4
      ensures kicked.Some? ==> Fits(grid.Board(), kicked.value, newRotation)
      ensures kicked == Some(currentPosition.Plus(Left)) <==> Fits(grid.Board(), currentPosition.Plus(Left), newRotation)
      ensures kicked == Some(currentPosition.Plus(Right)) <==>
        !Fits(grid.Board(), currentPosition.Plus(Left), newRotation) && Fits(grid.Board(), currentPosition.Plus(Right), newRotation)
      ensures kicked.None? <==>
        !Fits(grid.Board(), currentPosition.Plus(Left), newRotation) && !Fits(grid.Board(), currentPosition.Plus(Right), newRotation)
    {
      ghost var b := grid.Board();
      var kickPositions := [Left, Right];
      for i := 0 to |kickPositions|
        invariant forall j :: 0 <= j < i ==> !Fits(b, currentPosition.Plus(kickPositions[j]), newRotation)
      {
        var kickedPos := currentPosition.Plus(kickPositions[i]);
        if PairFits(kickedPos, newRotation) {
          assert kickPositions[i] == (if i == 0 then Left else Right);
          assert i == 1 ==> !Fits(b, currentPosition.Plus(kickPositions[0]), newRotation);
          return Some(kickedPos);
        }
      }
      assert !Fits(b, currentPosition.Plus(kickPositions[0]), newRotation);
      assert !Fits(b, currentPosition.Plus(kickPositions[1]), newRotation);
      return None;
    }

    /** Where TryRotate puts the pair: in place when it fits turned, else the first kick that fits. */
    method FindRotation() returns (target: Option<Pos>)
      requires Valid()
      ensures target == RotationTarget(grid.Board(), currentPosition, rotation)
    {
      var newRotation := NextRotation(rotation);
      if PairFits(currentPosition, newRotation) {
        return Some(currentPosition);
      }
      target := FindKick(newRotation);
      assert target.Some? ==> target.value in {currentPosition.Plus(Left), currentPosition.Plus(Right)};
    }

    /**
     * Turns the pair clockwise, in place or with a left or right kick, committing
     * the first placement that fits; when none fits nothing changes.
     */
    method TryRotate() returns (rotated: bool)
      requires Valid()
      modifies this
      ensures Valid()
      ensures rotated <==> RotationTarget(old(grid.Board()), old(currentPosition), old(rotation)).Some?
      ensures rotated ==> currentPosition == RotationTarget(old(grid.Board()), old(currentPosition), old(rotation)).value
      ensures rotated ==> rotation == NextRotation(old(rotation))
      ensures !rotated ==> currentPosition == old(currentPosition) && rotation == old(rotation)
      ensures fallTimer == old(fallTimer) && isControlled == old(isControlled) &&
              puyoData1 == old(puyoData1) && puyoData2 == old(puyoData2)
    {
      var target := FindRotation();
      if target.Some? {
        currentPosition := target.value;
        rotation := NextRotation(rotation);
        return true;
      }
      return false;
    }

    /** The fall timer has reached one cell's worth of time; a zero speed never falls. */
    predicate FallDue(t: real)
      reads this
    {
      fallSpeed != 0.0 && t >= 1.0 / fallSpeed
    }

    /** The modifies footprint of landing: this pair, the board, and the manager if any. */
    ghost function Footprint(): set<object>
      reads this, grid
    {
      {this, grid.grid} + (if manager != null then {manager} else {})
    }

    /**
     * The writes of LandPuyo before the manager is told: both cells are stored
     * as Landed through SetPuyo, which skips a cell off the board and leaves
     * that record's position alone, and control is given up.
     */
    method WriteLanded()
      requires Valid()
      modifies this, grid.grid
      ensures Valid()
      ensures !isControlled
      ensures currentPosition == old(currentPosition) && rotation == old(rotation) && fallTimer == old(fallTimer)
      ensures puyoData1 == old(puyoData1).(state := Landed,
        gridPosition := if OnBoard(old(grid.Board()), Puyo1Position(currentPosition, rotation))
                        then Puyo1Position(currentPosition, rotation) else old(puyoData1).gridPosition)
      ensures puyoData2 == old(puyoData2).(state := Landed,
        gridPosition := if OnBoard(old(grid.Board()), Puyo2Position(currentPosition, rotation))
                        then Puyo2Position(currentPosition, rotation) else old(puyoData2).gridPosition)
      ensures grid.Board() == LandedBoard(old(grid.Board()), Puyo1Position(currentPosition, rotation), old(puyoData1),
                                          Puyo2Position(currentPosition, rotation), old(puyoData2))
    {
      var puyo1Pos := Puyo1Position(currentPosition, rotation);
      var puyo2Pos := Puyo2Position(currentPosition, rotation);
      var landed1 := puyoData1.(state := Landed);
      var landed2 := puyoData2.(state := Landed);
      var onBoard1 := grid.IsValidPosition(puyo1Pos);
      var onBoard2 := grid.IsValidPosition(puyo2Pos);
      grid.SetPuyo(puyo1Pos, landed1);
      grid.SetPuyo(puyo2Pos, landed2);
      puyoData1 := if onBoard1 then landed1.(gridPosition := puyo1Pos) else landed1;
      puyoData2 := if onBoard2 then landed2.(gridPosition := puyo2Pos) else landed2;
      isControlled := false;
    }

    /**
     * Writes both cells into the board as Landed, gives up control, and lets
     * the manager resolve chains. A cell off the board is not written and its
     * record keeps its old position. Without a manager the board is exactly
     * the landed board; with one, an active game runs the chain cascade of
     * the landed board and is over, and a stopped game keeps the landed board.
     */
    method LandPuyo() returns (ghost boards: seq<Board>, ghost rounds: seq<seq<Pos>>)
      requires Valid()
      modifies Footprint()
      ensures Valid()
      ensures !isControlled
      ensures currentPosition == old(currentPosition) && rotation == old(rotation) && fallTimer == old(fallTimer)
      ensures puyoData1 == old(puyoData1).(state := Landed,
        gridPosition := if OnBoard(old(grid.Board()), Puyo1Position(currentPosition, rotation))
                        then Puyo1Position(currentPosition, rotation) else old(puyoData1).gridPosition)
      ensures puyoData2 == old(puyoData2).(state := Landed,
        gridPosition := if OnBoard(old(grid.Board()), Puyo2Position(currentPosition, rotation))
                        then Puyo2Position(currentPosition, rotation) else old(puyoData2).gridPosition)
      ensures manager == null || !old(manager.gameActive) ==>
        grid.Board() == LandedBoard(old(grid.Board()), Puyo1Position(currentPosition, rotation), old(puyoData1),
                                    Puyo2Position(currentPosition, rotation), old(puyoData2))
      ensures manager != null && old(manager.gameActive) ==>
        PuzzleChains.AllSettled(grid.Board()) && PuzzleChains.NoMatches(grid.Board(), manager.minimumChainLength)
      ensures manager != null && old(manager.gameActive) ==>
        PuzzleChains.ChainRun(LandedBoard(old(grid.Board()), Puyo1Position(currentPosition, rotation), old(puyoData1),
                                          Puyo2Position(currentPosition, rotation), old(puyoData2)),
                              manager.minimumChainLength, boards, rounds) &&
        grid.Board() == boards[|rounds|] && !manager.gameActive
    {
      WriteLanded();
      boards, rounds := [grid.Board()], [];
      if manager != null {
        var processed;
        processed, boards, rounds := manager.OnPuyoLanded();
      }
    }

    /**
     * Advances the fall timer by deltaTime; once a fall is due the pair moves
     * down one cell or, if it cannot, lands, and the timer restarts from 0.
     */
    method HandleFalling(deltaTime: real) returns (landed: bool)
      requires Valid()
      modifies Footprint()
      ensures Valid()
      ensures fallTimer == if old(FallDue(fallTimer + deltaTime)) then 0.0 else old(fallTimer) + deltaTime
      ensures landed <==> old(FallDue(fallTimer + deltaTime)) && !Fits(old(grid.Board()), old(currentPosition).Plus(Down), old(rotation))
      ensures currentPosition ==
        if old(FallDue(fallTimer + deltaTime)) && !landed then old(currentPosition).Plus(Down) else old(currentPosition)
      ensures rotation == old(rotation)
      ensures isControlled == (old(isControlled) && !landed)
      ensures !landed ==> grid.Board() == old(grid.Board())
      ensures landed && (manager == null || !old(manager.gameActive)) ==>
        grid.Board() == LandedBoard(old(grid.Board()), currentPosition, old(puyoData1),
                                    Puyo2Position(currentPosition, rotation), old(puyoData2))
      ensures landed ==> puyoData1.state == Landed && puyoData2.state == Landed
    {
      fallTimer := fallTimer + deltaTime;
      assert grid.Board() == old(grid.Board());
      landed := false;
      if FallDue(fallTimer) {
        var moved := TryMove(Down);
        assert grid.Board() == old(grid.Board());
        if !moved {
          ghost var boards, rounds := LandPuyo();
          landed := true;
        }
        fallTimer := 0.0;
      }
    }
  }

  /** The satellite of a freshly spawned upright pair sits above the top row, off the board. */
  lemma SpawnSatelliteOffBoard(p: FallingPuyo)
    requires p.Valid() && p.currentPosition == Pos(p.grid.width / 2, p.grid.height as int - 1) && p.rotation == 0
    ensures !OnBoard(p.grid.Board(), Puyo2Position(p.currentPosition, p.rotation))
    ensures !Fits(p.grid.Board(), p.currentPosition, p.rotation)
  {
  }
}
