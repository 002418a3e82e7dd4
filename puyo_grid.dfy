/**
 * The Python puzzle grid (src/puzzle/puyo_grid.py): a PuyoGrid object owning
 * a width x height array of cell kinds, with bounds-checked access, column
 * queries, gravity, the depth-first group search, chain detection and the
 * chain scoring and elimination sequence. Rendering, particles, animation
 * queues and sound are not modelled.
 */
module PyGrid {
  import opened PyBoard
  import opened PyChains
  import opened PyLevels
  import opened PyRules

  class PuyoGrid {
    const width: int
    const height: int
    const grid: array2<PuyoType>
    var totalChains: int
    var lastChainScore: int
    var lastChainPositions: set<(int, int)>

    ghost predicate Valid()
      reads this
    {
      grid.Length0 == width && grid.Length1 == height
    }

    /** Column x of the array as a sequence, top row first. */
    ghost function Column(x: int): (s: seq<PuyoType>)
      requires 0 <= x < grid.Length0
      reads grid
      ensures |s| == grid.Length1 && forall y :: 0 <= y < |s| ==> s[y] == grid[x, y]
    {
      seq(grid.Length1, y requires 0 <= y < grid.Length1 reads grid => grid[x, y])
    }

    /** The whole board as a column-major sequence. */
    ghost function Cells(): (g: Grid)
      reads grid
      ensures Rectangular(g, grid.Length0, grid.Length1)
      ensures forall x :: 0 <= x < |g| ==> g[x] == Column(x)
    {
      seq(grid.Length0, x requires 0 <= x < grid.Length0 reads grid => Column(x))
    }

    /** A GRID_WIDTH x GRID_HEIGHT grid of empty cells with no chain history. */
    constructor()
      ensures Valid() && width == GridWidth && height == GridHeight
      ensures Cells() == BlankGrid(GridWidth, GridHeight)
      ensures totalChains == 0 && lastChainScore == 0 && lastChainPositions == {}
    {
      width := GridWidth;
      height := GridHeight;
      grid := new PuyoType[GridWidth, GridHeight]((_, _) => Empty);
      totalChains := 0;
      lastChainScore := 0;
      lastChainPositions := {};
      new;
      assert Cells() == BlankGrid(GridWidth, GridHeight) by {
        forall x | 0 <= x < GridWidth
          ensures Cells()[x] == BlankGrid(GridWidth, GridHeight)[x]
        {
          assert Column(x) == Blank(GridHeight);
        }
      }
    }

    /** clear: every cell emptied and the chain history reset. */
    method Clear()
      requires Valid()
      modifies this, grid
      ensures Valid()
      ensures Cells() == BlankGrid(width, height)
      ensures totalChains == 0 && lastChainScore == 0 && lastChainPositions == {}
    {
      for x := 0 to width
        invariant forall i, j :: 0 <= i < x && 0 <= j < height ==> grid[i, j] == Empty
      {
        for y := 0 to height
          invariant forall i, j :: 0 <= i < x && 0 <= j < height ==> grid[i, j] == Empty
          invariant forall j :: 0 <= j < y ==> grid[x, j] == Empty
        {
          grid[x, y] := Empty;
        }
      }
      totalChains := 0;
      lastChainScore := 0;
      lastChainPositions := {};
      assert Cells() == BlankGrid(width, height) by {
        forall x | 0 <= x < width
          ensures Cells()[x] == BlankGrid(width, height)[x]
        {
          assert Column(x) == Blank(height);
        }
      }
    }

    predicate IsValidPosition(x: int, y: int)
      requires Valid()
      reads this, grid
      ensures IsValidPosition(x, y) <==> InBounds(Cells(), PuyoPosition(x, y))
    {
      0 <= x < width && 0 <= y < height
    }

    /** get_puyo: Empty off the board. */
    function GetPuyo(x: int, y: int): (t: PuyoType)
      requires Valid()
      reads this, grid
      ensures t == Get(Cells(), PuyoPosition(x, y))
    {
      if IsValidPosition(x, y) then grid[x, y] else Empty
    }

    /** set_puyo: false and no change off the board. */
    method SetPuyo(x: int, y: int, puyoType: PuyoType) returns (ok: bool)
      requires Valid()
      modifies grid
      ensures ok <==> InBounds(old(Cells()), PuyoPosition(x, y))
      ensures Cells() == Put(old(Cells()), PuyoPosition(x, y), puyoType)
    {
      if !IsValidPosition(x, y) {
        return false;
      }
      grid[x, y] := puyoType;
      ok := true;
      assert Cells() == Put(old(Cells()), PuyoPosition(x, y), puyoType) by {
        assert Column(x) == old(Column(x))[y := puyoType];
        forall i | 0 <= i < width && i != x
          ensures Column(i) == old(Column(i))
        {
        }
      }
    }

    predicate IsEmpty(x: int, y: int)
      requires Valid()
      reads this, grid
    {
      GetPuyo(x, y) == Empty
    }

    /** can_place_puyo: on the board and empty. */
    predicate CanPlacePuyo(x: int, y: int)
      requires Valid()
      reads this, grid
      ensures CanPlacePuyo(x, y) <==> InBounds(Cells(), PuyoPosition(x, y)) && Cells()[x][y] == Empty
    {
      IsValidPosition(x, y) && IsEmpty(x, y)
    }

    /** get_column_height: 0 for a column off the board. */
    method GetColumnHeight(x: int) returns (h: int)
      requires Valid()
      ensures h == (if 0 <= x < width then Height(Cells()[x]) else 0)
    {
      if !(0 <= x < width) {
        return 0;
      }
      ghost var col := Cells()[x];
      for y := 0 to height
        invariant forall i :: 0 <= i < y ==> col[i] == Empty
      {
        if !IsEmpty(x, y) {
          return height - y;
        }
      }
      return 0;
    }

    /** get_drop_position: -1 for a column off the board or a full column. */
    method GetDropPosition(x: int) returns (y: int)
      requires Valid()
      ensures y == (if 0 <= x < width then LowestEmpty(Cells()[x]) else -1)
    {
      if !(0 <= x < width) {
        return -1;
      }
      ghost var col := Cells()[x];
      var k := height - 1;
      while k >= 0
        invariant -1 <= k < height
        invariant forall i :: k < i < height ==> col[i] != Empty
      {
        if IsEmpty(x, k) {
          return k;
        }
        k := k - 1;
      }
      return -1;
    }

    /** drop_puyo: the puyo lands in the lowest empty cell of column x. */
    method DropPuyo(x: int, puyoType: PuyoType) returns (ok: bool)
      requires Valid()
      modifies grid
      ensures ok <==> 0 <= x < width && Empty in old(Cells())[x]
      ensures Cells() == if ok then Put(old(Cells()), PuyoPosition(x, LowestEmpty(old(Cells())[x])), puyoType)
                         else old(Cells())
    {
      var dropY := GetDropPosition(x);
      if dropY == -1 {
        return false;
      }
      var _ := SetPuyo(x, dropY, puyoType);
      ok := true;
    }
 
    /**
     * apply_gravity: every column compacted towards the bottom, keeping the
     * order of its puyos; the result counts the puyos that moved.
     */
    method ApplyGravity() returns (movedCount: int)
      requires Valid()
      modifies grid
      ensures Cells() == Gravity(old(Cells()))
      ensures movedCount == SumMoves(old(Cells()))
    {
      ghost var g0 := Cells();
      movedCount := 0;
      for x := 0 to width
        invariant forall i :: 0 <= i < width ==> Column(i) == if i < x then Compacted(g0[i]) else g0[i]
        invariant movedCount == SumMoves(g0[..x])
      {
        ghost var before := Cells();
        assert before[x] == g0[x];
        var moved := SettleColumn(x);
        forall i | 0 <= i < width
          ensures Column(i) == if i == x then Compacted(before[x]) else before[i]
        {
        }
        assert g0[..x + 1][..x] == g0[..x] && g0[..x + 1][x] == g0[x];
        assert SumMoves(g0[..x + 1]) == SumMoves(g0[..x]) + Moves(g0[x]);
        movedCount := movedCount + moved;
      }
      assert g0[..width] == g0;
      assert Cells() == Gravity(g0) by {
        forall i | 0 <= i < width
          ensures Cells()[i] == Gravity(g0)[i]
        {
        }
      }
    }

    /** One column of apply_gravity: read_y walks up from the bottom, write_y marks the next free cell. */
    method SettleColumn(x: int) returns (moved: int)
      requires Valid() && 0 <= x < width
      modifies grid
      ensures forall y :: 0 <= y < height ==> grid[x, y] == Compacted(old(Column(x)))[y]
      ensures forall i, y :: 0 <= i < width && i != x && 0 <= y < height ==> grid[i, y] == old(grid[i, y])
      ensures moved == Moves(old(Column(x)))
    {
      ghost var c0 := Column(x);
      ghost var col := c0;
      var writeY := height - 1;
      var readY := height - 1;
      moved := 0;
      assert c0[..height] == c0 && c0[height..] == [];
      while readY >= 0
        invariant Settling(c0, col, readY, writeY)
        invariant |col| == height && forall y :: 0 <= y < height ==> grid[x, y] == col[y]
        invariant moved == Moves(c0[readY + 1..])
        invariant forall i, y :: 0 <= i < width && i != x && 0 <= y < height ==> grid[i, y] == old(grid[i, y])
      {
        var puyo := grid[x, readY];
        SettleRead(c0, col, readY, writeY);
        if puyo != Empty {
          if writeY != readY {
            SettleMove(c0, col, readY, writeY);
            grid[x, writeY] := puyo;
            grid[x, readY] := Empty;
            col := col[writeY := puyo][readY := Empty];
            moved := moved + 1;
          } else {
            SettleKeep(c0, col, readY, writeY);
          }
          writeY := writeY - 1;
        } else {
          SettleSkip(c0, col, readY, writeY);
        }
        readY := readY - 1;
      }
      SettleDone(c0, col, writeY);
    }
 
    ghost function AllCells(): set<PuyoPosition>
      reads grid
    {
      set x, y | 0 <= x < grid.Length0 && 0 <= y < grid.Length1 :: PuyoPosition(x, y)
    }

    /**
     * find_connected_puyos: the 4-connected group of the start cell's kind;
     * empty for a start off the board or holding Empty or Garbage.
     */
    method FindConnectedPuyos(startX: int, startY: int) returns (connected: set<PuyoPosition>)
      requires Valid()
      ensures connected == Group(Cells(), PuyoPosition(startX, startY))
    {
      if !IsValidPosition(startX, startY) {
        return {};
      }
      var startType := GetPuyo(startX, startY);
      if startType == Empty || startType == Garbage {
        return {};
      }
      var start := PuyoPosition(startX, startY);
      connected := Dfs(start, startType, {});
      ClosedLinkedIsComponent(Cells(), startType, connected, start);
    }

    /**
     * The nested dfs of find_connected_puyos: returns at once for a visited
     * cell, a cell off the board or one of another kind; otherwise marks pos
     * and searches its four neighbours in DIRECTIONS order. The visited set and
     * the connected set of the source always hold the same cells and are one
     * set here.
     */
    method Dfs(pos: PuyoPosition, startType: PuyoType, visited: set<PuyoPosition>)
      returns (result: set<PuyoPosition>)
      requires Valid()
      requires forall q :: q in visited ==> Same(Cells(), startType, q)
      ensures visited <= result
      ensures forall q :: q in result ==> Same(Cells(), startType, q)
      ensures forall q :: q in result && q !in visited ==> Linked(Cells(), startType, pos, q)
      ensures forall q, n :: q in result && q !in visited && Adjacent(q, n) && Same(Cells(), startType, n) ==> n in result
      ensures Same(Cells(), startType, pos) ==> pos in result
      decreases AllCells() - visited
    {
      ghost var g := Cells();
      if pos in visited {
        return visited;
      }
      if !IsValidPosition(pos.x, pos.y) {
        return visited;
      }
      if GetPuyo(pos.x, pos.y) != startType {
        return visited;
      }
      var current := visited + {pos};
      LinkedSelf(g, startType, pos);
      assert pos in AllCells();
      for i := 0 to |Directions|
        invariant visited + {pos} <= current
        invariant forall q :: q in current ==> Same(g, startType, q)
        invariant forall q :: q in current && q !in visited ==> Linked(g, startType, pos, q)
        invariant forall q, n :: q in current && q !in visited && q != pos && Adjacent(q, n) && Same(g, startType, n) ==> n in current
        invariant forall j :: 0 <= j < i && Same(g, startType, Step(pos, Directions[j])) ==> Step(pos, Directions[j]) in current
      {
        var next := Step(pos, Directions[i]);
        assert Adjacent(pos, next);
        var reached := Dfs(next, startType, current);
        forall q | q in reached && q !in current
          ensures Linked(g, startType, pos, q)
        {
          LinkedPrepend(g, startType, pos, next, q);
        }
        assert forall j :: 0 <= j <= i && Same(g, startType, Step(pos, Directions[j])) ==> Step(pos, Directions[j]) in reached by {
          assert forall j :: 0 <= j < i ==> Step(pos, Directions[j]) in current ==> Step(pos, Directions[j]) in reached;
        }
        current := reached;
      }
      forall n | Adjacent(pos, n) && Same(g, startType, n)
        ensures n in current
      {
        StepsAreAdjacent(pos, n);
      }
      result := current;
    }

    /**
     * find_all_chains: scans rows from the top, each row left to right; an
     * unvisited matchable cell adds its whole group to visited, and a group
     * of at least MIN_CHAIN_LENGTH puyos becomes a record scored by the
     * authentic formula.
     */
    method FindAllChains() returns (chains: seq<ChainResult>)
      requires Valid()
      ensures ChainsOf(Cells(), chains)
    {
      ghost var g := Cells();
      var visited: set<PuyoPosition> := {};
      chains := [];
      ghost var starts: seq<PuyoPosition> := [];
      ScanStart(g);
      for y := 0 to height
        invariant ScanInv(g, 0, y, visited, chains, starts)
      {
        for x := 0 to width
          invariant ScanInv(g, x, y, visited, chains, starts)
        {
          var pos := PuyoPosition(x, y);
          var puyoType := GetPuyo(x, y);
          if pos in visited || puyoType == Empty || puyoType == Garbage {
            ScanSkip(g, x, y, visited, chains, starts);
          } else {
            var connected := FindConnectedPuyos(x, y);
            if |connected| >= MinChainLength {
              ScanAddChain(g, x, y, visited, chains, starts);
              var score := AuthenticChainScore(|connected|, puyoType);
              chains := chains + [ChainResult(connected, 1, |connected|, score, puyoType)];
              starts := starts + [pos];
            } else {
              ScanAddSmall(g, x, y, visited, chains, starts);
            }
            visited := visited + connected;
          }
        }
        ScanNextRow(g, width, height, y, visited, chains, starts);
      }
      ScanDone(g, width, height, visited, chains, starts);
    }
  
    /** _record_chain_positions: adds the (x, y) of every position to the record. */
    method RecordChainPositions(positions: set<PuyoPosition>)
      modifies this
      ensures lastChainPositions == old(lastChainPositions) + Coords(positions)
      ensures totalChains == old(totalChains) && lastChainScore == old(lastChainScore)
    {
      var remaining := positions;
      ghost var done: set<PuyoPosition> := {};
      while remaining != {}
        invariant remaining + done == positions
        invariant lastChainPositions == old(lastChainPositions) + Coords(done)
        invariant totalChains == old(totalChains) && lastChainScore == old(lastChainScore)
        decreases |remaining|
      {
        var pos :| pos in remaining;
        lastChainPositions := lastChainPositions + {(pos.x, pos.y)};
        CoordsUnion(done, {pos});
        assert Coords({pos}) == {(pos.x, pos.y)};
        done := done + {pos};
        remaining := remaining - {pos};
      }
    }

    /**
     * get_last_chain_positions: the recorded positions as a list without
     * repeats, in no particular order; the record is emptied.
     */
    method GetLastChainPositions() returns (positions: seq<(int, int)>)
      modifies this
      ensures |positions| == |old(lastChainPositions)|
      ensures forall c :: c in positions <==> c in old(lastChainPositions)
      ensures forall i, j :: 0 <= i < j < |positions| ==> positions[i] != positions[j]
      ensures lastChainPositions == {}
      ensures totalChains == old(totalChains) && lastChainScore == old(lastChainScore)
    {
      var remaining := lastChainPositions;
      positions := [];
      while remaining != {}
        invariant remaining <= old(lastChainPositions)
        invariant forall c :: c in positions <==> c in old(lastChainPositions) && c !in remaining
        invariant forall i, j :: 0 <= i < j < |positions| ==> positions[i] != positions[j]
        invariant |positions| + |remaining| == |old(lastChainPositions)|
        decreases |remaining|
      {
        var c :| c in remaining;
        positions := positions + [c];
        remaining := remaining - {c};
      }
      lastChainPositions := {};
    }

    /**
     * eliminate_puyos: empties every listed cell that holds a puyo and
     * returns how many there were; empty or off-board cells are skipped.
     */
    method EliminatePuyos(positions: set<PuyoPosition>) returns (count: int)
      requires Valid()
      modifies grid
      ensures Cells() == ClearCells(old(Cells()), positions)
      ensures count == |Occupied(old(Cells()), positions)|
    {
      ghost var g0 := Cells();
      ghost var done: set<PuyoPosition> := {};
      var remaining := positions;
      count := 0;
      ClearNothing(g0);
      while remaining != {}
        invariant remaining + done == positions && remaining !! done
        invariant Cells() == ClearCells(g0, done)
        invariant count == |Occupied(g0, done)|
        decreases |remaining|
      {
        var pos :| pos in remaining;
        var puyoType := GetPuyo(pos.x, pos.y);
        assert puyoType == Get(g0, pos);
        OccupiedOneMore(g0, done, pos);
        ClearOneMore(g0, done, pos);
        if puyoType != Empty {
          var _ := SetPuyo(pos.x, pos.y, Empty);
          count := count + 1;
        } else {
          PutEmptyOverEmpty(Cells(), pos);
        }
        done := done + {pos};
        remaining := remaining - {pos};
      }
    }

    /** _calculate_chain_level_score: each group's authentic score times the level multiplier, truncated, summed. */
    method ChainLevelScore(chains: seq<ChainResult>, chainLevel: int) returns (total: int)
      ensures total == LevelScore(chains, chainLevel)
    {
      if |chains| == 0 {
        return 0;
      }
      total := 0;
      var chainMultiplier := ChainMultiplier(chainLevel);
      for i := 0 to |chains|
        invariant total == LevelScore(chains[..i], chainLevel)
      {
        var puyoCount := |chains[i].eliminatedPuyos|;
        var baseScore := AuthenticChainScore(puyoCount, chains[i].chainType);
        var chainScore := Scaled(baseScore, chainMultiplier);
        LevelScoreStep(chains, i, chainLevel);
        total := total + chainScore;
      }
      assert chains[..|chains|] == chains;
    }

    /**
     * The loop of execute_chain_elimination: records and empties each group in
     * turn on the board as found, adding up scores and emptied cells.
     */
    method EliminateGroups(chains: seq<ChainResult>) returns (totalScore: int, totalEliminated: int)
      requires Valid()
      requires forall a, b :: 0 <= a < b < |chains| ==> chains[a].eliminatedPuyos !! chains[b].eliminatedPuyos
      modifies this, grid
      ensures Cells() == ClearCells(old(Cells()), Covered(chains))
      ensures totalEliminated == |Occupied(old(Cells()), Covered(chains))|
      ensures totalScore == SumScores(chains)
      ensures lastChainPositions == old(lastChainPositions) + Coords(Covered(chains))
      ensures totalChains == old(totalChains) && lastChainScore == old(lastChainScore)
    {
      ghost var g0 := Cells();
      totalScore := 0;
      totalEliminated := 0;
      ClearNothing(g0);
      for i := 0 to |chains|
        invariant Cells() == ClearCells(g0, Covered(chains[..i]))
        invariant totalEliminated == |Occupied(g0, Covered(chains[..i]))|
        invariant totalScore == SumScores(chains[..i])
        invariant lastChainPositions == old(lastChainPositions) + Coords(Covered(chains[..i]))
        invariant totalChains == old(totalChains) && lastChainScore == old(lastChainScore)
      {
        var c := chains[i];
        RecordChainPositions(c.eliminatedPuyos);
        var count := EliminatePuyos(c.eliminatedPuyos);
        totalScore := totalScore + c.score;
        totalEliminated := totalEliminated + count;
        CorrectedStep(g0, chains, i);
      }
      assert chains[..|chains|] == chains;
    }

    /**
     * execute_chain_elimination: finds the groups, records and empties each
     * one on the board as found, then applies gravity once. With no group it
     * changes nothing and returns (0, 0).
     */
    method ExecuteChainElimination() returns (totalScore: int, totalEliminated: int, ghost chains: seq<ChainResult>)
      requires Valid()
      modifies this, grid
      ensures ChainsOf(old(Cells()), chains)
      ensures chains == [] ==>
        Cells() == old(Cells()) && totalScore == 0 && totalEliminated == 0 &&
        lastChainPositions == old(lastChainPositions) && totalChains == old(totalChains) && lastChainScore == old(lastChainScore)
      ensures chains != [] ==>
        Cells() == LevelCorrected(old(Cells()), chains).board &&
        Cells() == Gravity(ClearCells(old(Cells()), Poppable(old(Cells())))) &&
        totalEliminated == |Poppable(old(Cells()))| && totalScore == SumScores(chains) &&
        lastChainPositions == Coords(Poppable(old(Cells()))) &&
        totalChains == old(totalChains) + |chains| && lastChainScore == totalScore
    {
      ghost var g0 := Cells();
      var found := FindAllChains();
      chains := found;
      if |found| == 0 {
        return 0, 0, chains;
      }
      totalScore, totalEliminated := EliminateAndSettle(found);
      CorrectedLevelOf(g0, found, Cells(), totalEliminated, lastChainPositions);
    }

    /**
     * The body of execute_chain_elimination once groups were found: clears
     * the record, empties and records every group, applies gravity once and
     * updates the statistics.
     */
    method EliminateAndSettle(chains: seq<ChainResult>) returns (totalScore: int, totalEliminated: int)
      requires Valid()
      requires forall a, b :: 0 <= a < b < |chains| ==> chains[a].eliminatedPuyos !! chains[b].eliminatedPuyos
      modifies this, grid
      ensures Cells() == Gravity(ClearCells(old(Cells()), Covered(chains)))
      ensures totalEliminated == |Occupied(old(Cells()), Covered(chains))|
      ensures totalScore == SumScores(chains)
      ensures lastChainPositions == {} + Coords(Covered(chains))
      ensures totalChains == old(totalChains) + |chains| && lastChainScore == totalScore
    {
      lastChainPositions := {};
      totalScore, totalEliminated := EliminateGroups(chains);
      var _ := ApplyGravity();
      totalChains := totalChains + |chains|;
      lastChainScore := totalScore;
    }

    /**
     * One level of execute_full_chain_sequence: for each record in turn,
     * records its positions, empties the cells it named at the start of the
     * level, and applies gravity.
     */
    method EliminateLevel(chains: seq<ChainResult>) returns (levelScore: int, levelEliminated: int)
      requires Valid()
      modifies this, grid
      ensures Cells() == LevelAsWritten(old(Cells()), chains).board
      ensures levelEliminated == LevelAsWritten(old(Cells()), chains).eliminated
      ensures levelScore == SumScores(chains)
      ensures lastChainPositions == old(lastChainPositions) + Coords(Covered(chains))
      ensures totalChains == old(totalChains) && lastChainScore == old(lastChainScore)
    {
      ghost var g0 := Cells();
      levelScore := 0;
      levelEliminated := 0;
      assert chains[..0] == [];
      ghost var done := LevelAsWritten(g0, []);
      for i := 0 to |chains|
        invariant done == LevelAsWritten(g0, chains[..i])
        invariant Cells() == done.board && levelEliminated == done.eliminated && levelScore == done.score
        invariant lastChainPositions == old(lastChainPositions) + Coords(Covered(chains[..i]))
        invariant totalChains == old(totalChains) && lastChainScore == old(lastChainScore)
      {
        var c := chains[i];
        var count := EliminateGroupAndSettle(c.eliminatedPuyos);
        levelScore := levelScore + c.score;
        levelEliminated := levelEliminated + count;
        PrefixStep(g0, chains, i);
        CoordsUnion(Covered(chains[..i]), c.eliminatedPuyos);
        done := LevelAsWritten(g0, chains[..i + 1]);
      }
      assert chains[..|chains|] == chains;
      LevelAsWrittenConserves(g0, chains);
    }

    /** The body of a level's loop: record one group's positions, empty its cells, apply gravity. */
    method EliminateGroupAndSettle(positions: set<PuyoPosition>) returns (count: int)
      requires Valid()
      modifies this, grid
      ensures Cells() == Gravity(ClearCells(old(Cells()), positions))
      ensures count == |Occupied(old(Cells()), positions)|
      ensures lastChainPositions == old(lastChainPositions) + Coords(positions)
      ensures totalChains == old(totalChains) && lastChainScore == old(lastChainScore)
    {
      RecordChainPositions(positions);
      count := EliminatePuyos(positions);
      var _ := ApplyGravity();
    }

    /**
     * One pass of the while loop of execute_full_chain_sequence, for level
     * chainLevel: find the groups; with none, report it and change nothing;
     * otherwise run the level and compute its bonus.
     */
    method RunLevel(chainLevel: int) returns (found: bool, levelBonus: int, levelEliminated: int, ghost chains: seq<ChainResult>)
      requires Valid()
      modifies this, grid
      ensures Found([old(Cells())], [chains])
      ensures found <==> chains != []
      ensures !found ==> Cells() == old(Cells()) && lastChainPositions == old(lastChainPositions) && Poppable(Cells()) == {}
      ensures found ==> StoneCount(Cells()) <= StoneCount(old(Cells())) - MinChainLength
      ensures Cells() == LevelAsWritten(old(Cells()), chains).board
      ensures levelEliminated == LevelAsWritten(old(Cells()), chains).eliminated
      ensures levelBonus == Scaled(SumScores(chains), ChainMultiplier(chainLevel))
      ensures lastChainPositions == old(lastChainPositions) + Coords(Covered(chains))
      ensures totalChains == old(totalChains) && lastChainScore == old(lastChainScore)
    {
      ghost var g := Cells();
      var records := FindAllChains();
      chains := records;
      NoChainsIffStable(g, records);
      FoundOne(g, records);
      if |records| == 0 {
        assert Covered(records) == {};
        return false, 0, 0, chains;
      }
      LevelAsWrittenProgress(g, records);
      var levelScore;
      levelScore, levelEliminated := EliminateLevel(records);
      var chainMultiplier := ChainMultiplier(chainLevel);
      levelBonus := Scaled(levelScore, chainMultiplier);
      found := true;
    }

    /**
     * execute_full_chain_sequence: clears the record and applies gravity,
     * then runs levels until find_all_chains finds nothing. Level k's base
     * score gets the multiplier of level k; the statistics change only when
     * at least one level ran.
     */
    method ExecuteFullChainSequence() returns (totalScore: int, totalEliminated: int, ghost boards: seq<Grid>, ghost levels: seq<seq<ChainResult>>)
      requires Valid()
      modifies this, grid
      ensures Cascade(boards, levels) && Found(boards, levels)
      ensures boards[0] == Gravity(old(Cells())) && Cells() == boards[|levels|]
      ensures Poppable(Cells()) == {}
      ensures totalScore == CascadeScore(levels) && totalEliminated == CascadeEliminated(boards, levels)
      ensures lastChainPositions == CascadeCoords(levels)
      ensures levels == [] ==> totalChains == old(totalChains) && lastChainScore == old(lastChainScore)
      ensures levels != [] ==> totalChains == old(totalChains) + |levels| && lastChainScore == totalScore
    {
      lastChainPositions := {};
      var _ := ApplyGravity();
      var chainLevel;
      totalScore, totalEliminated, chainLevel, boards, levels := RunCascade();
      if chainLevel > 0 {
        lastChainScore := totalScore;
        totalChains := totalChains + chainLevel;
      }
    }

    /**
     * The level loop of execute_full_chain_sequence: a level after another
     * until find_all_chains finds nothing, summing the scaled level scores
     * and the eliminated counts and recording every position.
     */
    method RunCascade() returns (totalScore: int, totalEliminated: int, chainLevel: int,
                                 ghost boards: seq<Grid>, ghost levels: seq<seq<ChainResult>>)
      requires Valid() && lastChainPositions == {}
      modifies this, grid
      ensures Valid()
      ensures Cascade(boards, levels) && Found(boards, levels) && chainLevel == |levels|
      ensures boards[0] == old(Cells()) && Cells() == boards[|levels|]
      ensures Poppable(Cells()) == {}
      ensures totalScore == CascadeScore(levels) && totalEliminated == CascadeEliminated(boards, levels)
      ensures lastChainPositions == CascadeCoords(levels)
      ensures totalChains == old(totalChains) && lastChainScore == old(lastChainScore)
    {
      totalScore := 0;
      totalEliminated := 0;
      chainLevel := 0;
      boards := [Cells()];
      levels := [];
      while true
        invariant Valid()
        invariant Cascade(boards, levels) && Found(boards, levels)
        invariant boards[0] == old(Cells()) && Cells() == boards[|levels|]
        invariant chainLevel == |levels|
        invariant totalScore == CascadeScore(levels) && totalEliminated == CascadeEliminated(boards, levels)
        invariant lastChainPositions == CascadeCoords(levels)
        invariant totalChains == old(totalChains) && lastChainScore == old(lastChainScore)
        decreases StoneCount(Cells())
      {
        var found, levelBonus, levelEliminated;
        ghost var chains;
        found, levelBonus, levelEliminated, chains := RunLevel(chainLevel + 1);
        if !found {
          break;
        }
        FoundExtend(boards, levels, chains, Cells());
        CascadeExtend(boards, levels, chains, Cells());
        chainLevel := chainLevel + 1;
        totalScore := totalScore + levelBonus;
        totalEliminated := totalEliminated + levelEliminated;
        boards := boards + [Cells()];
        levels := levels + [chains];
      }
    }

    /**
     * is_authentic_game_over: the spawn cells, then the top-row count,
     * then the three centre columns, each rule returning True at once.
     */
    method IsAuthenticGameOver() returns (over: bool)
      requires Valid()
      ensures over == AuthenticGameOver(Cells())
    {
      var spawnX := width / 2;
      var mainSpawnY := 1;
      if !CanPlacePuyo(spawnX, mainSpawnY) {
        return true;
      }
      var subSpawnY := 0;
      if !CanPlacePuyo(spawnX, subSpawnY) {
        return true;
      }
      var blockedCount := 0;
      for x := 0 to width
        invariant blockedCount == TopRowCount(Cells(), x)
      {
        if !IsEmpty(x, 0) {
          blockedCount := blockedCount + 1;
        }
      }
      if blockedCount >= width / 2 {
        return true;
      }
      var centerBlocked := 0;
      var centerCols := [spawnX - 1, spawnX, spawnX + 1];
      for i := 0 to |centerCols|
        invariant centerBlocked == BlockedAmong(Cells(), centerCols[..i])
      {
        var x := centerCols[i];
        if 0 <= x < width && !IsEmpty(x, 0) {
          centerBlocked := centerBlocked + 1;
        }
        assert centerCols[..i + 1][..i] == centerCols[..i];
      }
      assert centerCols[..|centerCols|] == CenterColumns(Cells());
      over := centerBlocked >= 3;
    }

    /** is_game_over: the authentic test. */
    method IsGameOver() returns (over: bool)
      requires Valid()
      ensures over == AuthenticGameOver(Cells())
    {
      over := IsAuthenticGameOver();
    }

    /** get_grid_copy: the board as nested lists, detached from the array. */
    method GetGridCopy() returns (copy: Grid)
      requires Valid()
      ensures copy == Cells()
    {
      copy := [];
      for x := 0 to width
        invariant |copy| == x && forall i :: 0 <= i < x ==> copy[i] == Column(i)
      {
        var column: seq<PuyoType> := [];
        for y := 0 to height
          invariant |column| == y && forall j :: 0 <= j < y ==> column[j] == grid[x, j]
        {
          column := column + [grid[x, y]];
        }
        copy := copy + [column];
      }
    }

    /**
     * load_grid: False for a wrong width; otherwise columns are checked and
     * copied one at a time, and a column of the wrong height stops the load
     * with the earlier columns already copied.
     */
    method LoadGrid(gridData: seq<seq<PuyoType>>) returns (ok: bool)
      requires Valid()
      modifies grid
      ensures LoadResult(ok, Cells()) == LoadAsWritten(old(Cells()), gridData, height)
    {
      ghost var g0 := Cells();
      if |gridData| != width {
        return false;
      }
      for x := 0 to width
        invariant forall i :: 0 <= i < x ==> |gridData[i]| == height
        invariant forall i, j :: 0 <= i < width && 0 <= j < height ==> grid[i, j] == if i < x then gridData[i][j] else g0[i][j]
      {
        if |gridData[x]| != height {
          LoadedPrefix(g0, gridData, x);
          return false;
        }
        for y := 0 to height
          invariant forall i, j :: 0 <= i < width && 0 <= j < height && i != x ==> grid[i, j] == if i < x then gridData[i][j] else g0[i][j]
          invariant forall j :: 0 <= j < height ==> grid[x, j] == if j < y then gridData[x][j] else g0[x][j]
        {
          grid[x, y] := gridData[x][y];
        }
      }
      LoadedPrefix(g0, gridData, width);
      ok := true;
    }

    /** The board holds the first k columns of data and the rest of g0. */
    lemma LoadedPrefix(g0: Grid, data: seq<seq<PuyoType>>, k: int)
      requires Valid() && Rectangular(g0, width, height) && |data| == width && 0 <= k <= width
      requires forall i :: 0 <= i < k ==> |data[i]| == height
      requires forall i, j :: 0 <= i < width && 0 <= j < height ==> grid[i, j] == if i < k then data[i][j] else g0[i][j]
      ensures Cells() == data[..k] + g0[k..]
    {
      var r := data[..k] + g0[k..];
      forall i | 0 <= i < width
        ensures Cells()[i] == r[i]
      {
        assert |r[i]| == height;
        assert Column(i) == r[i];
      }
    }
  }
}
