/**
 * The C# puzzle board (Scripts/Battle/PuzzleGrid.cs): a Width x Height
 * array of cells, bounds-checked access, and the recursive flood fill that
 * collects a same-coloured group.
 */
module PuzzleBoard {
  import opened PuyoTypes
  import opened Wrappers

  /** Column-major snapshot of the board: b[x][y], with y = 0 the bottom row. */
  type Board = seq<seq<PuyoData>>

  predicate OnBoard(b: Board, p: Pos) {
    0 <= p.x < |b| && 0 <= p.y < |b[p.x]|
  }

  /** The board with cell p replaced by v; a position off the board changes nothing. */
  function SetCell(b: Board, p: Pos, v: PuyoData): Board {
    if OnBoard(b, p) then b[p.x := b[p.x][p.y := v]] else b
  }

  /**
   * The flood fill's test for a cell: on the board, of the target colour and
   * not Empty. The lifecycle state of the cell is not consulted.
   */
  predicate Matches(b: Board, target: PuyoColor, p: Pos) {
    OnBoard(b, p) && b[p.x][p.y].color == target && !b[p.x][p.y].IsEmpty()
  }

  /** A walk through matching cells in which every step goes to an adjacent cell. */
  predicate IsPath(b: Board, target: PuyoColor, path: seq<Pos>) {
    |path| > 0 &&
    (forall i :: 0 <= i < |path| ==> Matches(b, target, path[i])) &&
    (forall i :: 0 < i < |path| ==> Adjacent(path[i - 1], path[i]))
  }

  /** q is 4-connected to p through cells of the target colour. */
  ghost predicate Linked(b: Board, target: PuyoColor, p: Pos, q: Pos) {
    exists path :: IsPath(b, target, path) && path[0] == p && path[|path| - 1] == q
  }

  /** The group of p: every cell 4-connected to p through the target colour. */
  ghost function Component(b: Board, target: PuyoColor, p: Pos): set<Pos> {
    set x, y | 0 <= x < |b| && 0 <= y < |b[x]| && Linked(b, target, p, Pos(x, y)) :: Pos(x, y)
  }

  lemma LinkedEnds(b: Board, target: PuyoColor, p: Pos, q: Pos)
    requires Linked(b, target, p, q)
    ensures Matches(b, target, p) && Matches(b, target, q)
  {
    var path :| IsPath(b, target, path) && path[0] == p && path[|path| - 1] == q;
    assert Matches(b, target, path[0]);
    assert Matches(b, target, path[|path| - 1]);
  }

  lemma LinkedSelf(b: Board, target: PuyoColor, p: Pos)
    requires Matches(b, target, p)
    ensures Linked(b, target, p, p)
  {
    var path := [p];
    assert IsPath(b, target, path);
  }

  lemma LinkedStep(b: Board, target: PuyoColor, p: Pos, q: Pos, r: Pos)
    requires Linked(b, target, p, q) && Adjacent(q, r) && Matches(b, target, r)
    ensures Linked(b, target, p, r)
  {
    var path :| IsPath(b, target, path) && path[0] == p && path[|path| - 1] == q;
    var longer := path + [r];
    assert IsPath(b, target, longer);
    assert longer[0] == p && longer[|longer| - 1] == r;
  }

  lemma LinkedSymmetric(b: Board, target: PuyoColor, p: Pos, q: Pos)
    requires Linked(b, target, p, q)
    ensures Linked(b, target, q, p)
  {
    var path :| IsPath(b, target, path) && path[0] == p && path[|path| - 1] == q;
    var back := seq(|path|, i requires 0 <= i < |path| => path[|path| - 1 - i]);
    assert forall i :: 0 <= i < |back| ==> back[i] == path[|path| - 1 - i];
    assert IsPath(b, target, back);
    assert back[0] == q && back[|back| - 1] == p;
  }

  lemma LinkedTransitive(b: Board, target: PuyoColor, p: Pos, q: Pos, r: Pos)
    requires Linked(b, target, p, q) && Linked(b, target, q, r)
    ensures Linked(b, target, p, r)
  {
    var first :| IsPath(b, target, first) && first[0] == p && first[|first| - 1] == q;
    var second :| IsPath(b, target, second) && second[0] == q && second[|second| - 1] == r;
    var joined := first + second[1..];
    assert forall i :: |first| <= i < |joined| ==> joined[i] == second[i - |first| + 1];
    assert IsPath(b, target, joined);
    assert joined[0] == p && joined[|joined| - 1] == r;
  }

  /** Membership in a group is exactly 4-connection through the target colour. */
  lemma InComponent(b: Board, target: PuyoColor, p: Pos, q: Pos)
    ensures q in Component(b, target, p) <==> Linked(b, target, p, q)
  {
    if Linked(b, target, p, q) {
      LinkedEnds(b, target, p, q);
      assert q == Pos(q.x, q.y);
    }
  }

  /** Groups are equivalence classes: any member of a group has the same group. */
  lemma SameComponent(b: Board, target: PuyoColor, p: Pos, q: Pos)
    requires Linked(b, target, p, q)
    ensures Component(b, target, q) == Component(b, target, p)
  {
    LinkedSymmetric(b, target, p, q);
    forall r | r in Component(b, target, q)
      ensures r in Component(b, target, p)
    {
      InComponent(b, target, q, r);
      LinkedTransitive(b, target, p, q, r);
      InComponent(b, target, p, r);
    }
    forall r | r in Component(b, target, p)
      ensures r in Component(b, target, q)
    {
      InComponent(b, target, p, r);
      LinkedTransitive(b, target, q, p, r);
      InComponent(b, target, q, r);
    }
  }

  /** A group is empty exactly when its start cell does not match. */
  lemma ComponentHasStart(b: Board, target: PuyoColor, p: Pos)
    ensures p in Component(b, target, p) <==> Matches(b, target, p)
  {
    InComponent(b, target, p, p);
    if Matches(b, target, p) {
      LinkedSelf(b, target, p);
    } else if Linked(b, target, p, p) {
      LinkedEnds(b, target, p, p);
    }
  }

  /** Every cell of a list whose later cells each touch an earlier one is connected to its first cell. */
  lemma {:induction false} ParentChainLinked(b: Board, target: PuyoColor, list: seq<Pos>, k: nat)
    requires k < |list|
    requires forall i :: 0 <= i < |list| ==> Matches(b, target, list[i])
    requires forall i :: 0 < i < |list| ==> exists j :: 0 <= j < i && Adjacent(list[j], list[i])
    ensures Linked(b, target, list[0], list[k])
    decreases k
  {
    if k == 0 {
      LinkedSelf(b, target, list[0]);
    } else {
      var j :| 0 <= j < k && Adjacent(list[j], list[k]);
      ParentChainLinked(b, target, list, j);
      LinkedStep(b, target, list[0], list[j], list[k]);
    }
  }

  /** A list that holds a matching start and is closed under matching neighbours holds every cell linked to the start. */
  lemma ClosedListHoldsLinked(b: Board, target: PuyoColor, list: seq<Pos>, start: Pos, q: Pos)
    requires Matches(b, target, start) ==> start in list
    requires forall i, r :: 0 <= i < |list| && Adjacent(list[i], r) && Matches(b, target, r) ==> r in list
    requires Linked(b, target, start, q)
    ensures q in list
  {
    var path :| IsPath(b, target, path) && path[0] == start && path[|path| - 1] == q;
    var k := 0;
    assert Matches(b, target, path[0]);
    while k < |path| - 1
      invariant 0 <= k < |path|
      invariant path[k] in list
    {
      assert Adjacent(path[k], path[k + 1]) && Matches(b, target, path[k + 1]);
      k := k + 1;
    }
  }

  ghost predicate Distinct(list: seq<Pos>) {
    forall i, j :: 0 <= i < j < |list| ==> list[i] != list[j]
  }

  /**
   * The state of a fill in progress: the list holds exactly the visited cells,
   * without repeats, all matching, and each cell after the first touches an
   * earlier one.
   */
  ghost predicate FillState(b: Board, target: PuyoColor, list: seq<Pos>, visited: set<Pos>) {
    (forall i :: 0 <= i < |list| ==> Matches(b, target, list[i])) &&
    Distinct(list) &&
    (forall q :: q in visited <==> q in list) &&
    (forall i :: 0 < i < |list| ==> exists j :: 0 <= j < i && Adjacent(list[j], list[i]))
  }

  /** A matching cell q has been visited. */
  ghost predicate Resolved(b: Board, target: PuyoColor, q: Pos, visited: set<Pos>) {
    Matches(b, target, q) ==> q in visited
  }

  /** Every matching neighbour of p is in the list. */
  ghost predicate Closed(b: Board, target: PuyoColor, p: Pos, list: seq<Pos>) {
    forall q :: Adjacent(p, q) && Matches(b, target, q) ==> q in list
  }

  lemma FillStateAppend(b: Board, target: PuyoColor, list: seq<Pos>, visited: set<Pos>, p: Pos)
    requires FillState(b, target, list, visited)
    requires Matches(b, target, p) && p !in visited
    requires |list| == 0 || exists j :: 0 <= j < |list| && Adjacent(list[j], p)
    ensures FillState(b, target, list + [p], visited + {p})
  {
    var longer := list + [p];
    forall i | 0 < i < |longer|
      ensures exists j :: 0 <= j < i && Adjacent(longer[j], longer[i])
    {
      if i < |list| {
        var j :| 0 <= j < i && Adjacent(list[j], list[i]);
        assert longer[j] == list[j];
      } else {
        var j :| 0 <= j < |list| && Adjacent(list[j], p);
        assert longer[j] == list[j];
      }
    }
  }

  lemma ClosedGrows(b: Board, target: PuyoColor, p: Pos, list: seq<Pos>, longer: seq<Pos>)
    requires Closed(b, target, p, list) && list <= longer
    ensures Closed(b, target, p, longer)
  {
    forall q | Adjacent(p, q) && Matches(b, target, q)
      ensures q in longer
    {
      var i :| 0 <= i < |list| && list[i] == q;
      assert longer[i] == q;
    }
  }

  /** The fill's visiting order: up, down, left, right. */
  const Directions := [Up, Down, Left, Right]

  /** Each of the four directions leads to an adjacent cell. */
  lemma DirectionAdjacent(p: Pos, k: int)
    requires 0 <= k < 4
    ensures Adjacent(p, p.Plus(Directions[k]))
  {
  }

  lemma NeighboursClosed(b: Board, target: PuyoColor, p: Pos, visited: set<Pos>, list: seq<Pos>)
    requires forall j :: 0 <= j < 4 ==> Resolved(b, target, p.Plus(Directions[j]), visited)
    requires forall q :: q in visited <==> q in list
    ensures Closed(b, target, p, list)
  {
    forall q | Adjacent(p, q) && Matches(b, target, q)
      ensures q in list
    {
      var j := if q.y == p.y + 1 then 0 else if q.y == p.y - 1 then 1 else if q.x == p.x - 1 then 2 else 3;
      assert q == p.Plus(Directions[j]);
    }
  }

  /**
   * The fill of one cell part way through its neighbours: the cell p sits
   * right after the list the fill started from, every cell added after it is
   * closed, and the first `done` neighbours of p are resolved.
   */
  ghost predicate NeighbourLoop(b: Board, target: PuyoColor, start: seq<Pos>, p: Pos,
                                list: seq<Pos>, visited: set<Pos>, done: nat)
  {
    FillState(b, target, list, visited) &&
    start + [p] <= list &&
    (forall i :: |start| < i < |list| ==> Closed(b, target, list[i], list)) &&
    (forall j :: 0 <= j < done && j < 4 ==> Resolved(b, target, p.Plus(Directions[j]), visited))
  }

  lemma NeighbourLoopStep(b: Board, target: PuyoColor, start: seq<Pos>, p: Pos, list: seq<Pos>,
                          visited: set<Pos>, k: nat, list': seq<Pos>, visited': set<Pos>)
    requires NeighbourLoop(b, target, start, p, list, visited, k) && k < 4
    requires FillState(b, target, list', visited') && list <= list' && visited <= visited'
    requires Resolved(b, target, p.Plus(Directions[k]), visited')
    requires forall i :: |list| <= i < |list'| ==> Closed(b, target, list'[i], list')
    ensures NeighbourLoop(b, target, start, p, list', visited', k + 1)
  {
    forall i | |start| < i < |list|
      ensures Closed(b, target, list'[i], list')
    {
      assert list'[i] == list[i];
      ClosedGrows(b, target, list[i], list, list');
    }
  }

  lemma NeighbourLoopDone(b: Board, target: PuyoColor, start: seq<Pos>, p: Pos, list: seq<Pos>, visited: set<Pos>)
    requires NeighbourLoop(b, target, start, p, list, visited, 4)
    ensures FillState(b, target, list, visited) && start <= list && |start| < |list| && list[|start|] == p
    ensures forall i :: |start| <= i < |list| ==> Closed(b, target, list[i], list)
  {
    assert list[|start|] == (start + [p])[|start|];
    NeighboursClosed(b, target, p, visited, list);
  }

  /** The cells of a Boolean array that are set. */
  ghost function TrueCells(a: array2<bool>): set<Pos>
    reads a
  {
    set x, y | 0 <= x < a.Length0 && 0 <= y < a.Length1 && a[x, y] :: Pos(x, y)
  }

  /** The cells of a Boolean array that are clear. */
  ghost function FalseCells(a: array2<bool>): set<Pos>
    reads a
  {
    set x, y | 0 <= x < a.Length0 && 0 <= y < a.Length1 && !a[x, y] :: Pos(x, y)
  }

  /** Sets one cell of a Boolean array. */
  method SetTrue(a: array2<bool>, p: Pos)
    requires 0 <= p.x < a.Length0 && 0 <= p.y < a.Length1
    modifies a
    ensures TrueCells(a) == old(TrueCells(a)) + {p}
    ensures FalseCells(a) == old(FalseCells(a)) - {p}
  {
    ghost var t0, f0 := TrueCells(a), FalseCells(a);
    a[p.x, p.y] := true;
    forall q | q in TrueCells(a)
      ensures q in t0 + {p}
    {
      if q != p {
        assert old(a[q.x, q.y]);
      }
    }
    forall q | q in t0 + {p}
      ensures q in TrueCells(a)
    {
      assert a[q.x, q.y];
    }
    forall q | q in f0 - {p}
      ensures q in FalseCells(a)
    {
      assert !a[q.x, q.y];
    }
  }

  class PuzzleGrid {
    const width: nat
    const height: nat
    const grid: array2<PuyoData>

    /** The array has the configured size and every cell records its own position. */
    ghost predicate Valid()
      reads this, grid
    {
      grid.Length0 == width && grid.Length1 == height &&
      forall x, y :: 0 <= x < width && 0 <= y < height ==> grid[x, y].gridPosition == Pos(x, y)
    }

    ghost function Board(): (b: Board)
      reads this, grid
      ensures |b| == grid.Length0
      ensures forall x :: 0 <= x < |b| ==> |b[x]| == grid.Length1
      ensures forall x, y :: 0 <= x < grid.Length0 && 0 <= y < grid.Length1 ==> b[x][y] == grid[x, y]
    {
      seq(grid.Length0, x requires 0 <= x < grid.Length0 reads grid =>
        seq(grid.Length1, y requires 0 <= y < grid.Length1 reads grid => grid[x, y]))
    }

    /** InitializeGrid: every cell holds a fresh Empty record for its own position. */
    constructor (w: nat, h: nat)
      ensures width == w && height == h && Valid()
      ensures forall x, y :: 0 <= x < w && 0 <= y < h ==> grid[x, y] == NewPuyoData(Empty, Pos(x, y))
      ensures forall x, y :: 0 <= x < w && 0 <= y < h ==> grid[x, y].IsEmpty()
    {
      width, height := w, h;
      var g := new PuyoData[w, h];
      for x := 0 to w
        invariant forall i, j :: 0 <= i < x && 0 <= j < h ==> g[i, j] == NewPuyoData(Empty, Pos(i, j))
      {
        for y := 0 to h
          invariant forall i, j :: 0 <= i < x && 0 <= j < h ==> g[i, j] == NewPuyoData(Empty, Pos(i, j))
          invariant forall j :: 0 <= j < y ==> g[x, j] == NewPuyoData(Empty, Pos(x, j))
        {
          g[x, y] := NewPuyoData(Empty, Pos(x, y));
        }
      }
      grid := g;
    }

    predicate IsValidPosition(pos: Pos)
      reads this, grid
      ensures Valid() ==> (IsValidPosition(pos) <==> OnBoard(Board(), pos))
    {
      0 <= pos.x < width && 0 <= pos.y < height
    }

    /** False off the board; otherwise whether the cell has no colour. */
    predicate IsPositionEmpty(pos: Pos)
      requires Valid()
      reads this, grid
      ensures IsPositionEmpty(pos) <==> OnBoard(Board(), pos) && Board()[pos.x][pos.y].IsEmpty()
    {
      IsValidPosition(pos) && grid[pos.x, pos.y].IsEmpty()
    }

    /** None (the source's null) off the board; otherwise the cell, which records its own position. */
    function GetPuyo(pos: Pos): (r: Option<PuyoData>)
      requires Valid()
      reads this, grid
      ensures r.Some? <==> OnBoard(Board(), pos)
      ensures r.Some? ==> r.value == Board()[pos.x][pos.y] && r.value.gridPosition == pos
    {
      if IsValidPosition(pos) then Some(grid[pos.x, pos.y]) else None
    }

    /** Stores puyo at pos and records pos in it; off the board nothing changes. */
    method SetPuyo(pos: Pos, puyo: PuyoData)
      requires Valid()
      modifies grid
      ensures Valid()
      ensures Board() == SetCell(old(Board()), pos, puyo.(gridPosition := pos))
    {
      if !IsValidPosition(pos) {
        return;
      }
      grid[pos.x, pos.y] := puyo.(gridPosition := pos);
      assert Board() == SetCell(old(Board()), pos, puyo.(gridPosition := pos)) by {
        var b0, b1 := old(Board()), Board();
        forall x | 0 <= x < width
          ensures b1[x] == SetCell(b0, pos, puyo.(gridPosition := pos))[x]
        {
        }
      }
    }

    /** Replaces the cell at pos by a fresh Empty record; off the board nothing changes. */
    method RemovePuyo(pos: Pos)
      requires Valid()
      modifies grid
      ensures Valid()
      ensures Board() == SetCell(old(Board()), pos, NewPuyoData(Empty, pos))
    {
      if !IsValidPosition(pos) {
        return;
      }
      grid[pos.x, pos.y] := NewPuyoData(Empty, pos);
      assert Board() == SetCell(old(Board()), pos, NewPuyoData(Empty, pos)) by {
        var b0, b1 := old(Board()), Board();
        forall x | 0 <= x < width
          ensures b1[x] == SetCell(b0, pos, NewPuyoData(Empty, pos))[x]
        {
        }
      }
    }

    /**
     * The group of startPos in targetColor, listed once per cell, starting with
     * startPos itself; empty when startPos is off the board, Empty or of another colour.
     */
    method GetConnectedPuyos(startPos: Pos, targetColor: PuyoColor) returns (connected: seq<Pos>)
      requires Valid()
      ensures Distinct(connected)
      ensures forall q :: q in connected <==> q in Component(Board(), targetColor, startPos)
      ensures |connected| > 0 ==> connected[0] == startPos
    {
      var visited := new bool[width, height]((x, y) => false);
      var b := Board();
      connected := FloodFill(startPos, targetColor, [], visited, b);
      assert forall q :: q in TrueCells(visited) <==> q in connected;
      forall q | q in connected
        ensures q in Component(b, targetColor, startPos)
      {
        var k :| 0 <= k < |connected| && connected[k] == q;
        ParentChainLinked(b, targetColor, connected, k);
        InComponent(b, targetColor, startPos, q);
      }
      forall i, r | 0 <= i < |connected| && Adjacent(connected[i], r) && Matches(b, targetColor, r)
        ensures r in connected
      {
        assert Closed(b, targetColor, connected[i], connected);
      }
      forall q | q in Component(b, targetColor, startPos)
        ensures q in connected
      {
        InComponent(b, targetColor, startPos, q);
        ClosedListHoldsLinked(b, targetColor, connected, startPos, q);
      }
    }

    /**
     * The recursive fill from pos: an unvisited cell of the target colour is
     * marked, appended and then its four neighbours are filled in turn.
     */
    method FloodFill(pos: Pos, targetColor: PuyoColor, connected: seq<Pos>, visited: array2<bool>, ghost b: Board)
      returns (result: seq<Pos>)
      requires Valid() && visited.Length0 == width && visited.Length1 == height && b == Board()
      requires FillState(b, targetColor, connected, TrueCells(visited))
      requires |connected| == 0 || exists j :: 0 <= j < |connected| && Adjacent(connected[j], pos)
      modifies visited
      ensures FillState(b, targetColor, result, TrueCells(visited))
      ensures connected <= result
      ensures |connected| < |result| ==> result[|connected|] == pos
      ensures Resolved(b, targetColor, pos, TrueCells(visited))
      ensures forall i :: |connected| <= i < |result| ==> Closed(b, targetColor, result[i], result)
      ensures old(TrueCells(visited)) <= TrueCells(visited)
      ensures FalseCells(visited) <= old(FalseCells(visited))
      decreases FalseCells(visited), 0
    {
      if !IsValidPosition(pos) || visited[pos.x, pos.y] {
        assert IsValidPosition(pos) ==> pos in TrueCells(visited);
        return connected;
      }
      var puyo := grid[pos.x, pos.y];
      if puyo.color != targetColor || puyo.IsEmpty() {
        return connected;
      }
      assert pos !in TrueCells(visited);
      assert pos in FalseCells(visited);
      SetTrue(visited, pos);
      FillStateAppend(b, targetColor, connected, old(TrueCells(visited)), pos);
      result := FillNeighbours(pos, targetColor, connected, connected + [pos], visited, b);
      NeighbourLoopDone(b, targetColor, connected, pos, result, TrueCells(visited));
    }

    /** The loop of FloodFill over the four directions from a freshly marked cell pos. */
    method FillNeighbours(pos: Pos, targetColor: PuyoColor, connected: seq<Pos>, list: seq<Pos>,
                          visited: array2<bool>, ghost b: Board)
      returns (result: seq<Pos>)
      requires Valid() && visited.Length0 == width && visited.Length1 == height && b == Board()
      requires NeighbourLoop(b, targetColor, connected, pos, list, TrueCells(visited), 0)
      modifies visited
      ensures NeighbourLoop(b, targetColor, connected, pos, result, TrueCells(visited), 4)
      ensures old(TrueCells(visited)) <= TrueCells(visited)
      ensures FalseCells(visited) <= old(FalseCells(visited))
      decreases FalseCells(visited), 1
    {
      result := list;
      var directions := Directions;
      for k := 0 to 4
        invariant NeighbourLoop(b, targetColor, connected, pos, result, TrueCells(visited), k)
        invariant FalseCells(visited) <= old(FalseCells(visited))
        invariant old(TrueCells(visited)) <= TrueCells(visited)
      {
        assert FillState(b, targetColor, result, TrueCells(visited));
        assert result[|connected|] == (connected + [pos])[|connected|] == pos;
        DirectionAdjacent(pos, k);
        ghost var before, seen := result, TrueCells(visited);
        result := FloodFill(pos.Plus(directions[k]), targetColor, result, visited, b);
        NeighbourLoopStep(b, targetColor, connected, pos, before, seen, k, result, TrueCells(visited));
      }
    }
  }
}
