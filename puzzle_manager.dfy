/**
 * The C# chain resolver (legacy/Scripts/Battle/PuzzleManager.cs): gravity
 * to a fixed point, match detection in raster order, removal rounds with
 * their counters, and the game-over test at the spawn cell.
 */
module PuzzleChains {
  import opened PuyoTypes
  import opened Wrappers
  import opened PuzzleBoard

  // ---------------------------------------------------------------------
  // Columns: the stones of a column, settledness and a gravity potential.
  // ---------------------------------------------------------------------

  function StoneOf(c: PuyoData): seq<(PuyoColor, PuyoState)> {
    if c.IsEmpty() then [] else [(c.color, c.state)]
  }

  /** The colour and state of the non-empty cells of a column, bottom to top. */
  function Stones(col: seq<PuyoData>): seq<(PuyoColor, PuyoState)>
    decreases |col|
  {
    if |col| == 0 then [] else StoneOf(col[0]) + Stones(col[1..])
  }

  /** The gravity loop stops here: no non-empty cell has an empty cell directly below it. */
  predicate Settled(col: seq<PuyoData>) {
    forall y :: 1 <= y < |col| && !col[y].IsEmpty() ==> !col[y - 1].IsEmpty()
  }

  predicate AllSettled(b: Board) {
    forall x :: 0 <= x < |b| ==> Settled(b[x])
  }

  /** The sum of the heights of the non-empty cells, counting from height k. */
  function PotFrom(col: seq<PuyoData>, k: nat): nat
    decreases |col|
  {
    if |col| == 0 then 0 else (if col[0].IsEmpty() then 0 else k) + PotFrom(col[1..], k + 1)
  }

  function ColPot(col: seq<PuyoData>): nat { PotFrom(col, 0) }

  function ColStones(col: seq<PuyoData>): nat { |Stones(col)| }

  function SumCols(b: Board, f: seq<PuyoData> -> nat): nat
    decreases |b|
  {
    if |b| == 0 then 0 else f(b[0]) + SumCols(b[1..], f)
  }

  /** The number of non-empty cells on the board. */
  function StoneCount(b: Board): nat { SumCols(b, ColStones) }

  /** Decreases with every move of the gravity loop. */
  function BoardPot(b: Board): nat { SumCols(b, ColPot) }

  /** Two boards of the same width whose columns hold the same stones in the same order. */
  predicate SameStones(b: Board, c: Board) {
    |b| == |c| && forall x :: 0 <= x < |b| ==> Stones(b[x]) == Stones(c[x])
  }

  lemma {:induction false} StonesAppend(a: seq<PuyoData>, c: seq<PuyoData>)
    ensures Stones(a + c) == Stones(a) + Stones(c)
    decreases |a|
  {
    if |a| == 0 {
      assert a + c == c;
    } else {
      assert (a + c)[1..] == a[1..] + c;
      StonesAppend(a[1..], c);
    }
  }

  lemma {:induction false} PotAppend(a: seq<PuyoData>, c: seq<PuyoData>, k: nat)
    ensures PotFrom(a + c, k) == PotFrom(a, k) + PotFrom(c, k + |a|)
    decreases |a|
  {
    if |a| == 0 {
      assert a + c == c;
    } else {
      assert (a + c)[1..] == a[1..] + c;
      PotAppend(a[1..], c, k + 1);
    }
  }

  lemma {:induction false} SumColsUpdate(b: Board, x: nat, c: seq<PuyoData>, f: seq<PuyoData> -> nat)
    requires x < |b|
    ensures SumCols(b[x := c], f) + f(b[x]) == SumCols(b, f) + f(c)
    decreases x
  {
    if x > 0 {
      assert b[x := c][1..] == b[1..][x - 1 := c];
      SumColsUpdate(b[1..], x - 1, c, f);
    }
  }

  lemma {:induction false} SumColsSame(b: Board, c: Board, f: seq<PuyoData> -> nat)
    requires |b| == |c| && forall x :: 0 <= x < |b| ==> f(b[x]) == f(c[x])
    ensures SumCols(b, f) == SumCols(c, f)
    decreases |b|
  {
    if |b| > 0 {
      SumColsSame(b[1..], c[1..], f);
    }
  }

  lemma {:induction false} StonesPair(a: PuyoData, c: PuyoData)
    ensures Stones([a, c]) == StoneOf(a) + StoneOf(c)
  {
    var nil: seq<PuyoData> := [];
    assert [a, c][1..] == [c];
    assert [c][1..] == nil;
    assert Stones([c]) == StoneOf(c) + Stones(nil);
  }

  lemma {:induction false} PotPair(a: PuyoData, c: PuyoData, k: nat)
    ensures PotFrom([a, c], k) == (if a.IsEmpty() then 0 else k) + (if c.IsEmpty() then 0 else k + 1)
  {
    var nil: seq<PuyoData> := [];
    assert [a, c][1..] == [c];
    assert [c][1..] == nil;
    assert PotFrom([c], k + 1) == (if c.IsEmpty() then 0 else k + 1) + PotFrom(nil, k + 2);
  }

  /** Stones and potential of a column cut around two adjacent cells. */
  lemma SplitPair(pre: seq<PuyoData>, a: PuyoData, c: PuyoData, post: seq<PuyoData>)
    ensures Stones(pre + [a, c] + post) == Stones(pre) + StoneOf(a) + StoneOf(c) + Stones(post)
    ensures PotFrom(pre + [a, c] + post, 0) ==
      PotFrom(pre, 0) + (if a.IsEmpty() then 0 else |pre|) + (if c.IsEmpty() then 0 else |pre| + 1) + PotFrom(post, |pre| + 2)
  {
    StonesAppend(pre + [a, c], post);
    StonesAppend(pre, [a, c]);
    StonesPair(a, c);
    PotAppend(pre + [a, c], post, 0);
    PotAppend(pre, [a, c], 0);
    PotPair(a, c, |pre|);
  }

  /** One move of the gravity loop keeps a column's stones and lowers its potential by one. */
  lemma ColumnMoveDown(col: seq<PuyoData>, y: int, v: PuyoData, e: PuyoData)
    requires 1 <= y < |col| && col[y - 1].IsEmpty() && !col[y].IsEmpty()
    requires v.color == col[y].color && v.state == col[y].state && e.IsEmpty()
    ensures Stones(col[y - 1 := v][y := e]) == Stones(col)
    ensures ColPot(col[y - 1 := v][y := e]) + 1 == ColPot(col)
  {
    var pre, post := col[..y - 1], col[y + 1..];
    var moved := col[y - 1 := v][y := e];
    assert col == pre + [col[y - 1], col[y]] + post;
    assert moved == pre + [v, e] + post;
    SplitPair(pre, col[y - 1], col[y], post);
    SplitPair(pre, v, e, post);
    assert StoneOf(col[y - 1]) == [] && StoneOf(e) == [];
    assert StoneOf(v) == StoneOf(col[y]);
    assert Stones(moved) == Stones(pre) + StoneOf(v) + Stones(post);
    assert Stones(col) == Stones(pre) + StoneOf(col[y]) + Stones(post);
  }

  /** The board after moving the cell (x, y) into the empty cell below it, as SetPuyo then RemovePuyo leave it. */
  lemma BoardMoveDown(b: Board, x: int, y: int, v: PuyoData)
    requires 0 <= x < |b| && 1 <= y < |b[x]|
    requires b[x][y - 1].IsEmpty() && !b[x][y].IsEmpty()
    requires v.color == b[x][y].color && v.state == b[x][y].state
    ensures var moved := SetCell(SetCell(b, Pos(x, y - 1), v), Pos(x, y), NewPuyoData(Empty, Pos(x, y)));
      SameStones(moved, b) && BoardPot(moved) < BoardPot(b) &&
      forall i :: 0 <= i < |b| ==> |moved[i]| == |b[i]|
  {
    var col := b[x];
    var e := NewPuyoData(Empty, Pos(x, y));
    var moved := SetCell(SetCell(b, Pos(x, y - 1), v), Pos(x, y), e);
    assert moved == b[x := col[y - 1 := v][y := e]];
    ColumnMoveDown(col, y, v, e);
    SumColsUpdate(b, x, col[y - 1 := v][y := e], ColPot);
  }

  lemma SameStonesCount(b: Board, c: Board)
    requires SameStones(b, c)
    ensures StoneCount(b) == StoneCount(c)
  {
    SumColsSame(b, c, ColStones);
  }

  // ---------------------------------------------------------------------
  // What a settled column looks like.
  // ---------------------------------------------------------------------

  lemma {:induction false} SettledEmptyBottom(col: seq<PuyoData>, y: nat)
    requires Settled(col) && y < |col| && col[0].IsEmpty()
    ensures col[y].IsEmpty()
    decreases y
  {
    if y > 0 {
      SettledEmptyBottom(col, y - 1);
    }
  }

  lemma {:induction false} AllEmptyNoStones(col: seq<PuyoData>)
    requires forall y :: 0 <= y < |col| ==> col[y].IsEmpty()
    ensures Stones(col) == []
    decreases |col|
  {
    if |col| > 0 {
      AllEmptyNoStones(col[1..]);
    }
  }

  /** A column has no more stones than cells. */
  lemma {:induction false} StonesAtMostCells(col: seq<PuyoData>)
    ensures |Stones(col)| <= |col|
    decreases |col|
  {
    if |col| > 0 {
      StonesAtMostCells(col[1..]);
    }
  }

  /** A settled column whose bottom cell is empty is empty throughout and has no stones. */
  lemma SettledEmptyColumn(col: seq<PuyoData>)
    requires Settled(col) && |col| > 0 && col[0].IsEmpty()
    ensures forall y :: 0 <= y < |col| ==> col[y].IsEmpty()
    ensures Stones(col) == []
  {
    forall y | 0 <= y < |col|
      ensures col[y].IsEmpty()
    {
      SettledEmptyBottom(col, y);
    }
    AllEmptyNoStones(col);
  }

  /** Dropping the bottom cell of a settled column leaves a settled column. */
  lemma SettledTail(col: seq<PuyoData>)
    requires Settled(col) && |col| > 0
    ensures Settled(col[1..])
  {
    var rest := col[1..];
    forall y | 1 <= y < |rest| && !rest[y].IsEmpty()
      ensures !rest[y - 1].IsEmpty()
    {
      assert rest[y] == col[y + 1] && rest[y - 1] == col[y];
    }
  }

  /**
   * A settled column is determined by its stones: the stones sit, in order,
   * in rows 0 .. |Stones(col)| - 1 and every row above them is empty.
   */
  lemma {:induction false} SettledLayout(col: seq<PuyoData>)
    requires Settled(col)
    ensures forall y :: 0 <= y < |col| ==> (!col[y].IsEmpty() <==> y < |Stones(col)|)
    ensures forall y :: 0 <= y < |Stones(col)| ==> y < |col| && Stones(col)[y] == (col[y].color, col[y].state)
    decreases |col|
  {
    if |col| > 0 {
      if col[0].IsEmpty() {
        SettledEmptyColumn(col);
      } else {
        var rest := col[1..];
        SettledTail(col);
        SettledLayout(rest);
        assert Stones(col) == [(col[0].color, col[0].state)] + Stones(rest);
        forall y | 0 <= y < |col|
          ensures (!col[y].IsEmpty() <==> y < |Stones(col)|)
        {
          if y > 0 {
            assert col[y] == rest[y - 1];
          }
        }
        StonesAtMostCells(col);
        forall y | 0 <= y < |Stones(col)|
          ensures Stones(col)[y] == (col[y].color, col[y].state)
        {
          if y > 0 {
            assert Stones(col)[y] == Stones(rest)[y - 1];
            assert col[y] == rest[y - 1];
          }
        }
      }
    } else {
      assert Stones(col) == [];
    }
  }

  // ---------------------------------------------------------------------
  // Removal of a list of cells.
  // ---------------------------------------------------------------------

  /** The board after RemovePuyo on each position of ps, in order. */
  function RemoveAll(b: Board, ps: seq<Pos>): Board
    decreases |ps|
  {
    if |ps| == 0 then b
    else SetCell(RemoveAll(b, ps[..|ps| - 1]), ps[|ps| - 1], NewPuyoData(Empty, ps[|ps| - 1]))
  }

  /**
   * Removal keeps the board's shape, empties every listed cell and leaves
   * every other cell as it was.
   */
  lemma {:induction false} RemoveAllCells(b: Board, ps: seq<Pos>)
    ensures |RemoveAll(b, ps)| == |b|
    ensures forall x :: 0 <= x < |b| ==> |RemoveAll(b, ps)[x]| == |b[x]|
    ensures forall p :: OnBoard(b, p) && p !in ps ==> RemoveAll(b, ps)[p.x][p.y] == b[p.x][p.y]
    ensures forall p :: OnBoard(b, p) && p in ps ==> RemoveAll(b, ps)[p.x][p.y].IsEmpty()
    decreases |ps|
  {
    if |ps| > 0 {
      var init := ps[..|ps| - 1];
      RemoveAllCells(b, init);
      forall p | OnBoard(b, p) && p in ps
        ensures RemoveAll(b, ps)[p.x][p.y].IsEmpty()
      {
        if p != ps[|ps| - 1] {
          var i :| 0 <= i < |ps| && ps[i] == p;
          assert init[i] == p;
        }
      }
    }
  }

  /** The last element of a distinct list does not occur before it. */
  lemma DistinctLast(list: seq<Pos>)
    requires Distinct(list) && |list| > 0
    ensures list[|list| - 1] !in list[..|list| - 1]
  {
    var init := list[..|list| - 1];
    forall i | 0 <= i < |init|
      ensures init[i] != list[|list| - 1]
    {
      assert init[i] == list[i];
    }
  }

  lemma ColumnRemoveStone(col: seq<PuyoData>, y: int, e: PuyoData)
    requires 0 <= y < |col| && !col[y].IsEmpty() && e.IsEmpty()
    ensures |Stones(col[y := e])| + 1 == |Stones(col)|
  {
    var pre, post := col[..y], col[y + 1..];
    assert col == pre + [col[y]] + post;
    assert col[y := e] == pre + [e] + post;
    StonesAppend(pre + [col[y]], post);
    StonesAppend(pre, [col[y]]);
    StonesAppend(pre + [e], post);
    StonesAppend(pre, [e]);
    assert [col[y]][1..] == [] && [e][1..] == [];
  }

  /** Removing distinct non-empty cells lowers the stone count by exactly their number. */
  lemma {:induction false} RemoveAllCount(b: Board, ps: seq<Pos>)
    requires Distinct(ps)
    requires forall i :: 0 <= i < |ps| ==> OnBoard(b, ps[i]) && !b[ps[i].x][ps[i].y].IsEmpty()
    ensures StoneCount(RemoveAll(b, ps)) + |ps| == StoneCount(b)
    decreases |ps|
  {
    if |ps| > 0 {
      var init, p := ps[..|ps| - 1], ps[|ps| - 1];
      RemoveAllCount(b, init);
      var r := RemoveAll(b, init);
      RemoveAllCells(b, init);
      DistinctLast(ps);
      var e := NewPuyoData(Empty, p);
      assert OnBoard(r, p) && r[p.x][p.y] == b[p.x][p.y];
      ColumnRemoveStone(r[p.x], p.y, e);
      SumColsUpdate(r, p.x, r[p.x][p.y := e], ColStones);
      assert RemoveAll(b, ps) == r[p.x := r[p.x][p.y := e]];
    }
  }

  // ---------------------------------------------------------------------
  // Matching groups and the raster scan that finds them.
  // ---------------------------------------------------------------------

  /** A scan start: a cell that satisfies CanMatch. */
  predicate IsStart(b: Board, s: Pos) {
    OnBoard(b, s) && b[s.x][s.y].CanMatch()
  }

  /** The group the fill returns from s, in the colour of s. */
  ghost function Group(b: Board, s: Pos): set<Pos> {
    if OnBoard(b, s) then Component(b, b[s.x][s.y].color, s) else {}
  }

  /** q belongs to a group of at least `min` cells that contains a matchable cell. */
  ghost predicate InMatchedGroup(b: Board, min: int, q: Pos) {
    exists s :: IsStart(b, s) && |Group(b, s)| >= min && q in Group(b, s)
  }

  /** In raster order (x outer, y inner), s comes before (x, y). */
  predicate Scanned(s: Pos, x: int, y: int) {
    s.x < x || (s.x == x && s.y < y)
  }

  /** c lies in the group of a start scanned before (x, y). */
  ghost predicate Covered(b: Board, x: int, y: int, c: Pos) {
    exists s :: Scanned(s, x, y) && IsStart(b, s) && c in Group(b, s)
  }

  /** q lies in a group of at least `min` cells whose start was scanned before (x, y). */
  ghost predicate Selected(b: Board, min: int, x: int, y: int, q: Pos) {
    exists s :: Scanned(s, x, y) && IsStart(b, s) && |Group(b, s)| >= min && q in Group(b, s)
  }

  /** Checked cells are exactly those covered by the groups of the starts scanned before (x, y). */
  ghost predicate CheckedInv(b: Board, x: int, y: int, checked: set<Pos>) {
    (forall c :: c in checked ==> Covered(b, x, y, c)) &&
    (forall s :: Scanned(s, x, y) && IsStart(b, s) ==> Group(b, s) <= checked)
  }

  /** The removal list holds, once each, the cells selected before (x, y). */
  ghost predicate ListInv(b: Board, min: int, x: int, y: int, toRemove: seq<Pos>) {
    Distinct(toRemove) &&
    (forall q :: q in toRemove <==> Selected(b, min, x, y, q))
  }

  /** The state of the raster scan of FindMatchingPuyos when it reaches (x, y). */
  ghost predicate ScanInv(b: Board, min: int, x: int, y: int, checked: set<Pos>, toRemove: seq<Pos>) {
    CheckedInv(b, x, y, checked) && ListInv(b, min, x, y, toRemove)
  }

  /** Every member of a group has that same group. */
  lemma GroupShared(b: Board, s: Pos, c: Pos)
    requires c in Group(b, s)
    ensures OnBoard(b, c) && !b[c.x][c.y].IsEmpty()
    ensures Group(b, c) == Group(b, s)
  {
    var color := b[s.x][s.y].color;
    InComponent(b, color, s, c);
    LinkedEnds(b, color, s, c);
    SameComponent(b, color, s, c);
  }

  /** Two groups that share a cell are the same group. */
  lemma GroupsMeet(b: Board, s: Pos, p: Pos, q: Pos)
    ensures q in Group(b, s) && q in Group(b, p) ==> Group(b, s) == Group(b, p)
  {
    if q in Group(b, s) && q in Group(b, p) {
      GroupShared(b, s, q);
      GroupShared(b, p, q);
    }
  }

  lemma StartInOwnGroup(b: Board, s: Pos)
    requires IsStart(b, s)
    ensures s in Group(b, s)
  {
    ComponentHasStart(b, b[s.x][s.y].color, s);
  }

  lemma {:induction false} DistinctCard(list: seq<Pos>, s: set<Pos>)
    requires Distinct(list) && forall q :: q in list <==> q in s
    ensures |s| == |list|
    decreases |list|
  {
    if |list| > 0 {
      var init, last := list[..|list| - 1], list[|list| - 1];
      DistinctLast(list);
      forall q ensures q in init <==> q in s - {last} {
        if q in init {
          var i :| 0 <= i < |init| && init[i] == q;
          assert list[i] == q;
        }
        if q in s - {last} {
          var i :| 0 <= i < |list| && list[i] == q;
          assert i < |list| - 1 && init[i] == q;
        }
      }
      DistinctCard(init, s - {last});
    }
  }

  lemma DistinctConcat(a: seq<Pos>, c: seq<Pos>)
    requires Distinct(a) && Distinct(c)
    requires forall j :: 0 <= j < |c| ==> c[j] !in a
    ensures Distinct(a + c)
  {
    forall i, j | 0 <= i < j < |a + c|
      ensures (a + c)[i] != (a + c)[j]
    {
      if j >= |a| {
        if i >= |a| {
          assert (a + c)[i] == c[i - |a|];
        } else {
          assert (a + c)[i] == a[i];
        }
        assert (a + c)[j] == c[j - |a|];
      }
    }
  }

  lemma CoveredStep(b: Board, x: int, y: int, c: Pos)
    requires Covered(b, x, y, c)
    ensures Covered(b, x, y + 1, c)
  {
    var s :| Scanned(s, x, y) && IsStart(b, s) && c in Group(b, s);
    assert Scanned(s, x, y + 1);
  }

  /** Moving the scan on by one cell adds the group of that cell, when it is a start of a large group. */
  lemma SelectedStep(b: Board, min: int, x: int, y: int, q: Pos)
    ensures Selected(b, min, x, y + 1, q) <==>
      Selected(b, min, x, y, q) ||
      (IsStart(b, Pos(x, y)) && |Group(b, Pos(x, y))| >= min && q in Group(b, Pos(x, y)))
  {
    if Selected(b, min, x, y + 1, q) {
      var s :| Scanned(s, x, y + 1) && IsStart(b, s) && |Group(b, s)| >= min && q in Group(b, s);
      if s != Pos(x, y) {
        assert Scanned(s, x, y);
      }
    }
    if Selected(b, min, x, y, q) {
      var s :| Scanned(s, x, y) && IsStart(b, s) && |Group(b, s)| >= min && q in Group(b, s);
      assert Scanned(s, x, y + 1);
    }
    if IsStart(b, Pos(x, y)) && |Group(b, Pos(x, y))| >= min && q in Group(b, Pos(x, y)) {
      assert Scanned(Pos(x, y), x, y + 1);
    }
  }

  lemma ScanStart(b: Board, min: int)
    ensures ScanInv(b, min, 0, 0, {}, [])
  {
  }

  /** Passing a cell that is no start, or is already checked, leaves the checked set valid. */
  lemma CheckedStepSame(b: Board, x: int, y: int, checked: set<Pos>)
    requires CheckedInv(b, x, y, checked)
    requires IsStart(b, Pos(x, y)) ==> Pos(x, y) in checked
    ensures CheckedInv(b, x, y + 1, checked)
  {
    var p := Pos(x, y);
    forall c | c in checked
      ensures Covered(b, x, y + 1, c)
    {
      CoveredStep(b, x, y, c);
    }
    forall s' | Scanned(s', x, y + 1) && IsStart(b, s')
      ensures Group(b, s') <= checked
    {
      if s' != p {
        assert Scanned(s', x, y);
      } else {
        assert Covered(b, x, y, p);
        var s :| Scanned(s, x, y) && IsStart(b, s) && p in Group(b, s);
        GroupShared(b, s, p);
      }
    }
  }

  /** Passing a cell that is no start, or lies in a scanned start's group, selects nothing new. */
  lemma ListStepSame(b: Board, min: int, x: int, y: int, toRemove: seq<Pos>)
    requires ListInv(b, min, x, y, toRemove)
    requires IsStart(b, Pos(x, y)) ==> Covered(b, x, y, Pos(x, y))
    ensures ListInv(b, min, x, y + 1, toRemove)
  {
    var p := Pos(x, y);
    forall q
      ensures q in toRemove <==> Selected(b, min, x, y + 1, q)
    {
      SelectedStep(b, min, x, y, q);
      if IsStart(b, p) && |Group(b, p)| >= min && q in Group(b, p) {
        var s :| Scanned(s, x, y) && IsStart(b, s) && p in Group(b, s);
        GroupShared(b, s, p);
        assert Scanned(s, x, y) && |Group(b, s)| >= min && q in Group(b, s);
      }
    }
  }

  /** A cell already checked lies in a scanned start's group, so its own group has been handled. */
  lemma ScanStepChecked(b: Board, min: int, x: int, y: int, checked: set<Pos>, toRemove: seq<Pos>)
    requires ScanInv(b, min, x, y, checked, toRemove) && Pos(x, y) in checked
    ensures ScanInv(b, min, x, y + 1, checked, toRemove)
  {
    assert Covered(b, x, y, Pos(x, y));
    CheckedStepSame(b, x, y, checked);
    ListStepSame(b, min, x, y, toRemove);
  }

  /** A cell that cannot match starts no group. */
  lemma ScanStepSkip(b: Board, min: int, x: int, y: int, checked: set<Pos>, toRemove: seq<Pos>)
    requires ScanInv(b, min, x, y, checked, toRemove) && !IsStart(b, Pos(x, y))
    ensures ScanInv(b, min, x, y + 1, checked, toRemove)
  {
    CheckedStepSame(b, x, y, checked);
    ListStepSame(b, min, x, y, toRemove);
  }

  /** The cells already listed for removal are outside the group of an unchecked start. */
  lemma ListedOutsideNewGroup(b: Board, min: int, x: int, y: int, checked: set<Pos>, toRemove: seq<Pos>, q: Pos)
    requires ScanInv(b, min, x, y, checked, toRemove)
    requires IsStart(b, Pos(x, y)) && Pos(x, y) !in checked
    ensures q in toRemove ==> q !in Group(b, Pos(x, y))
  {
    if q in toRemove {
      assert Selected(b, min, x, y, q);
      var s :| Scanned(s, x, y) && IsStart(b, s) && |Group(b, s)| >= min && q in Group(b, s);
      GroupsMeet(b, s, Pos(x, y), q);
      StartInOwnGroup(b, Pos(x, y));
    }
  }

  lemma CheckedStepFill(b: Board, x: int, y: int, checked: set<Pos>)
    requires CheckedInv(b, x, y, checked) && IsStart(b, Pos(x, y))
    ensures CheckedInv(b, x, y + 1, checked + Group(b, Pos(x, y)))
  {
    var p := Pos(x, y);
    var checked' := checked + Group(b, p);
    forall c | c in checked'
      ensures Covered(b, x, y + 1, c)
    {
      if c in checked {
        CoveredStep(b, x, y, c);
      } else {
        assert Scanned(p, x, y + 1) && IsStart(b, p) && c in Group(b, p);
      }
    }
    forall s' | Scanned(s', x, y + 1) && IsStart(b, s')
      ensures Group(b, s') <= checked'
    {
      if s' != p {
        assert Scanned(s', x, y);
      }
    }
  }

  lemma ListStepFill(b: Board, min: int, x: int, y: int, checked: set<Pos>, toRemove: seq<Pos>, connected: seq<Pos>)
    requires ScanInv(b, min, x, y, checked, toRemove)
    requires IsStart(b, Pos(x, y)) && Pos(x, y) !in checked
    requires Distinct(connected) && forall q :: q in connected <==> q in Group(b, Pos(x, y))
    ensures ListInv(b, min, x, y + 1, if |connected| >= min then toRemove + connected else toRemove)
  {
    var p := Pos(x, y);
    DistinctCard(connected, Group(b, p));
    var toRemove' := if |connected| >= min then toRemove + connected else toRemove;
    if |connected| >= min {
      forall j | 0 <= j < |connected|
        ensures connected[j] !in toRemove
      {
        ListedOutsideNewGroup(b, min, x, y, checked, toRemove, connected[j]);
      }
      DistinctConcat(toRemove, connected);
    }
    forall q
      ensures q in toRemove' <==> Selected(b, min, x, y + 1, q)
    {
      SelectedStep(b, min, x, y, q);
    }
  }

  /** An unchecked start: its whole group is checked and, when large enough, appended. */
  lemma ScanStepFill(b: Board, min: int, x: int, y: int, checked: set<Pos>, toRemove: seq<Pos>, connected: seq<Pos>)
    requires ScanInv(b, min, x, y, checked, toRemove)
    requires IsStart(b, Pos(x, y)) && Pos(x, y) !in checked
    requires Distinct(connected) && forall q :: q in connected <==> q in Group(b, Pos(x, y))
    ensures ScanInv(b, min, x, y + 1, checked + Group(b, Pos(x, y)),
                    if |connected| >= min then toRemove + connected else toRemove)
  {
    CheckedStepFill(b, x, y, checked);
    ListStepFill(b, min, x, y, checked, toRemove, connected);
  }

  lemma ScanNextColumn(b: Board, min: int, x: int, h: int, checked: set<Pos>, toRemove: seq<Pos>)
    requires forall i :: 0 <= i < |b| ==> |b[i]| == h
    requires ScanInv(b, min, x, h, checked, toRemove)
    ensures ScanInv(b, min, x + 1, 0, checked, toRemove)
  {
    forall s | IsStart(b, s)
      ensures Scanned(s, x, h) <==> Scanned(s, x + 1, 0)
    {
    }
    forall c | c in checked
      ensures Covered(b, x + 1, 0, c)
    {
      var s :| Scanned(s, x, h) && IsStart(b, s) && c in Group(b, s);
      assert Scanned(s, x + 1, 0);
    }
    forall q
      ensures Selected(b, min, x, h, q) <==> Selected(b, min, x + 1, 0, q)
    {
      if Selected(b, min, x, h, q) {
        var s :| Scanned(s, x, h) && IsStart(b, s) && |Group(b, s)| >= min && q in Group(b, s);
        assert Scanned(s, x + 1, 0);
      }
      if Selected(b, min, x + 1, 0, q) {
        var s :| Scanned(s, x + 1, 0) && IsStart(b, s) && |Group(b, s)| >= min && q in Group(b, s);
        assert Scanned(s, x, h);
      }
    }
  }

  /** At the end of the scan every start has been scanned. */
  lemma ScanDone(b: Board, min: int, checked: set<Pos>, toRemove: seq<Pos>)
    requires ScanInv(b, min, |b|, 0, checked, toRemove)
    ensures forall q :: q in toRemove <==> InMatchedGroup(b, min, q)
  {
    forall q
      ensures Selected(b, min, |b|, 0, q) <==> InMatchedGroup(b, min, q)
    {
      if InMatchedGroup(b, min, q) {
        var s :| IsStart(b, s) && |Group(b, s)| >= min && q in Group(b, s);
        assert Scanned(s, |b|, 0);
      }
    }
  }

  /** Every cell of a matched group is a non-empty cell of the board. */
  lemma MatchedCellOccupied(b: Board, min: int, q: Pos)
    requires InMatchedGroup(b, min, q)
    ensures OnBoard(b, q) && !b[q.x][q.y].IsEmpty()
  {
    var s :| IsStart(b, s) && |Group(b, s)| >= min && q in Group(b, s);
    GroupShared(b, s, q);
  }

  /** One round of the chain loop lowers the stone count by the number of cells it removed. */
  lemma RoundCount(b: Board, ps: seq<Pos>, after: Board)
    requires Distinct(ps)
    requires forall q :: q in ps ==> OnBoard(b, q) && !b[q.x][q.y].IsEmpty()
    requires SameStones(after, RemoveAll(b, ps))
    ensures StoneCount(after) + |ps| == StoneCount(b)
  {
    RemoveAllCount(b, ps);
    SameStonesCount(after, RemoveAll(b, ps));
  }

  /** The board has no matched group left. */
  ghost predicate NoMatches(b: Board, min: int) {
    forall q :: !InMatchedGroup(b, min, q)
  }

  // ---------------------------------------------------------------------
  // The rounds of the chain loop.
  // ---------------------------------------------------------------------

  /**
   * One round of the chain loop from board b: ps lists, once each, the cells
   * of every matched group of b, and next is a settled board holding the
   * stones left once those cells are removed.
   */
  ghost predicate Round(b: Board, min: int, ps: seq<Pos>, next: Board) {
    ps != [] && Distinct(ps) && (forall q :: q in ps <==> InMatchedGroup(b, min, q)) &&
    SameStones(next, RemoveAll(b, ps)) && AllSettled(next)
  }

  /** boards[i + 1] follows boards[i] by the round rounds[i]. */
  ghost predicate Rounds(boards: seq<Board>, rounds: seq<seq<Pos>>, min: int) {
    |boards| == |rounds| + 1 &&
    forall i :: 0 <= i < |rounds| ==> Round(boards[i], min, rounds[i], boards[i + 1])
  }

  /**
   * What ProcessChains does to the board b0: gravity gives the settled board
   * boards[0] with the same stones, the rounds follow one another, and the
   * last board has no matched group left.
   */
  ghost predicate ChainRun(b0: Board, min: int, boards: seq<Board>, rounds: seq<seq<Pos>>) {
    Rounds(boards, rounds, min) &&
    SameStones(boards[0], b0) && AllSettled(boards[0]) && NoMatches(boards[|rounds|], min)
  }

  /** The number of cells the rounds removed. */
  function Cleared(rounds: seq<seq<Pos>>): nat
    decreases |rounds|
  {
    if |rounds| == 0 then 0 else Cleared(rounds[..|rounds| - 1]) + |rounds[|rounds| - 1]|
  }

  lemma RoundsSnoc(boards: seq<Board>, rounds: seq<seq<Pos>>, min: int, ps: seq<Pos>, next: Board)
    requires Rounds(boards, rounds, min) && Round(boards[|rounds|], min, ps, next)
    ensures Rounds(boards + [next], rounds + [ps], min)
    ensures Cleared(rounds + [ps]) == Cleared(rounds) + |ps|
  {
    assert (rounds + [ps])[..|rounds|] == rounds;
  }

  /**
   * Every round removes at least one stone, and together the rounds remove
   * exactly the stones that left the board.
   */
  lemma {:induction false} RoundsConserve(boards: seq<Board>, rounds: seq<seq<Pos>>, min: int)
    requires Rounds(boards, rounds, min)
    ensures Cleared(rounds) + StoneCount(boards[|rounds|]) == StoneCount(boards[0])
    ensures |rounds| <= Cleared(rounds)
    decreases |rounds|
  {
    if |rounds| > 0 {
      var n := |rounds| - 1;
      assert Rounds(boards[..n + 1], rounds[..n], min);
      RoundsConserve(boards[..n + 1], rounds[..n], min);
      var ps := rounds[n];
      assert Round(boards[n], min, ps, boards[n + 1]);
      forall q | q in ps
        ensures OnBoard(boards[n], q) && !boards[n][q.x][q.y].IsEmpty()
      {
        MatchedCellOccupied(boards[n], min, q);
      }
      RoundCount(boards[n], ps, boards[n + 1]);
    }
  }

  /** A run has a round exactly when the settled starting board has a matched group. */
  lemma ChainRunHasRoundIff(b0: Board, min: int, boards: seq<Board>, rounds: seq<seq<Pos>>)
    requires ChainRun(b0, min, boards, rounds)
    ensures |rounds| > 0 <==> !NoMatches(boards[0], min)
  {
    if |rounds| > 0 {
      assert Round(boards[0], min, rounds[0], boards[1]);
      assert InMatchedGroup(boards[0], min, rounds[0][0]);
    }
  }

  lemma SetOfMembers(a: set<Pos>, before: set<Pos>, added: set<Pos>, list: seq<Pos>)
    requires forall q :: q in a <==> q in before || q in list
    requires forall q :: q in list <==> q in added
    ensures a == before + added
  {
  }

  /** Sets every listed cell of a Boolean array. */
  method MarkAll(a: array2<bool>, ps: seq<Pos>)
    requires forall i :: 0 <= i < |ps| ==> 0 <= ps[i].x < a.Length0 && 0 <= ps[i].y < a.Length1
    modifies a
    ensures forall q :: q in TrueCells(a) <==> q in old(TrueCells(a)) || q in ps
  {
    ghost var t0 := TrueCells(a);
    for i := 0 to |ps|
      invariant forall q :: q in TrueCells(a) <==> q in t0 || q in ps[..i]
    {
      SetTrue(a, ps[i]);
      assert ps[..i + 1] == ps[..i] + [ps[i]];
    }
    assert ps[..|ps|] == ps;
  }

  // ---------------------------------------------------------------------
  // One pass of the gravity loop.
  // ---------------------------------------------------------------------

  /** Every column has height h. */
  predicate Rectangular(b: Board, h: int) {
    forall i :: 0 <= i < |b| ==> |b[i]| == h
  }

  /** In column x, no non-empty cell below row y has an empty cell under it. */
  predicate SettledBelow(b: Board, x: int, y: int) {
    0 <= x < |b| ==>
      forall j :: 1 <= j < y && j < |b[x]| && !b[x][j].IsEmpty() ==> !b[x][j - 1].IsEmpty()
  }

  /**
   * A gravity pass that started from `start` and has reached (x, y): the
   * stones are still those of b0; if something fell the potential has
   * dropped, otherwise the board is untouched and settled so far; and
   * nothing falls on a settled board.
   */
  ghost predicate PassInv(b0: Board, start: Board, cur: Board, x: int, y: int, fell: bool) {
    SameStones(cur, b0) &&
    (fell ==> BoardPot(cur) < BoardPot(start)) &&
    (!fell ==> cur == start && (forall i :: 0 <= i < x && i < |cur| ==> Settled(cur[i])) && SettledBelow(cur, x, y)) &&
    (AllSettled(start) ==> !fell)
  }

  lemma PassStart(b0: Board, start: Board)
    requires SameStones(start, b0)
    ensures PassInv(b0, start, start, 0, 1, false)
  {
  }

  /** The move of the cell (x, y) into the empty cell below it. */
  lemma PassMove(b0: Board, start: Board, cur: Board, x: int, y: int, fell: bool, v: PuyoData)
    requires PassInv(b0, start, cur, x, y, fell)
    requires 0 <= x < |cur| && 1 <= y < |cur[x]|
    requires cur[x][y - 1].IsEmpty() && !cur[x][y].IsEmpty()
    requires v.color == cur[x][y].color && v.state == cur[x][y].state
    ensures var moved := SetCell(SetCell(cur, Pos(x, y - 1), v), Pos(x, y), NewPuyoData(Empty, Pos(x, y)));
      PassInv(b0, start, moved, x, y + 1, true)
  {
    BoardMoveDown(cur, x, y, v);
    var moved := SetCell(SetCell(cur, Pos(x, y - 1), v), Pos(x, y), NewPuyoData(Empty, Pos(x, y)));
    assert SameStones(moved, b0) by {
      forall i | 0 <= i < |moved|
        ensures Stones(moved[i]) == Stones(b0[i])
      {
        assert Stones(moved[i]) == Stones(cur[i]);
      }
    }
  }

  /** A cell that does not move. */
  lemma PassSkip(b0: Board, start: Board, cur: Board, x: int, y: int, fell: bool)
    requires PassInv(b0, start, cur, x, y, fell)
    requires 0 <= x < |cur| && 1 <= y < |cur[x]|
    requires cur[x][y].IsEmpty() || !cur[x][y - 1].IsEmpty()
    ensures PassInv(b0, start, cur, x, y + 1, fell)
  {
  }

  lemma PassNextColumn(b0: Board, start: Board, cur: Board, x: int, y: int, fell: bool)
    requires PassInv(b0, start, cur, x, y, fell)
    requires 0 <= x < |cur| && |cur[x]| <= y
    ensures PassInv(b0, start, cur, x + 1, 1, fell)
  {
  }

  lemma PassDone(b0: Board, start: Board, cur: Board, fell: bool)
    requires PassInv(b0, start, cur, |cur|, 1, fell)
    ensures SameStones(cur, b0)
    ensures !fell ==> cur == start && AllSettled(cur)
    ensures fell ==> BoardPot(cur) < BoardPot(start)
    ensures AllSettled(start) ==> !fell
  {
  }

  // ---------------------------------------------------------------------
  // The manager.
  // ---------------------------------------------------------------------

  class PuzzleManager {
    const grid: PuzzleGrid
    /** config.minimumChainLength (4 by default). */
    const minimumChainLength: int
    var isProcessingChains: bool
    var gameActive: bool
    /** Whether currentFallingPuyo refers to a live pair. */
    var hasFallingPuyo: bool

    constructor (grid: PuzzleGrid, minimumChainLength: int)
      ensures this.grid == grid && this.minimumChainLength == minimumChainLength
      ensures !isProcessingChains && gameActive && !hasFallingPuyo
    {
      this.grid := grid;
      this.minimumChainLength := minimumChainLength;
      isProcessingChains := false;
      gameActive := true;
      hasFallingPuyo := false;
    }

    /**
     * As written: tests the spawn cell (W/2, H-1) and the cell above it. The
     * cell above is off the board, where IsPositionEmpty is false, so the
     * test reports game over on every board.
     */
    predicate IsGameOver()
      requires grid.Valid()
      reads grid, grid.grid
    {
      var spawnPos := Pos(grid.width / 2, grid.height as int - 1);
      var topPos := spawnPos.Plus(Up);
      !grid.IsPositionEmpty(spawnPos) || !grid.IsPositionEmpty(topPos)
    }

    /** The cell above the spawn cell is never on the board, so IsGameOver holds on every board. */
    lemma IsGameOverAlwaysTrue()
      requires grid.Valid()
      ensures IsGameOver()
    {
      var topPos := Pos(grid.width / 2, grid.height as int - 1).Plus(Up);
      assert !OnBoard(grid.Board(), topPos);
    }

    /**
     * Corrected: the second cell of a new pair starts above the board, so
     * only the spawn cell decides. The game is over exactly when that cell is
     * off the board or occupied.
     */
    predicate IsGameOverCorrected()
      requires grid.Valid()
      reads grid, grid.grid
      ensures IsGameOverCorrected() <==>
        var b := grid.Board();
        var spawnPos := Pos(grid.width / 2, grid.height as int - 1);
        !OnBoard(b, spawnPos) || !b[spawnPos.x][spawnPos.y].IsEmpty()
    {
      !grid.IsPositionEmpty(Pos(grid.width / 2, grid.height as int - 1))
    }

    /** On an empty board of positive size the corrected test lets play go on, unlike IsGameOver. */
    lemma CorrectedGameOverOnEmptyBoard()
      requires grid.Valid() && grid.width > 0 && grid.height > 0
      requires forall x, y :: 0 <= x < grid.width && 0 <= y < grid.height ==> grid.Board()[x][y].IsEmpty()
      ensures !IsGameOverCorrected() && IsGameOver()
    {
      IsGameOverAlwaysTrue();
    }

    /**
     * The scan of FindMatchingPuyos: the cells, listed once each, of every
     * group of at least minimumChainLength cells that contains a cell able to
     * match. All of them are occupied cells of the board.
     */
    method FindMatchingPuyos() returns (toRemove: seq<Pos>)
      requires grid.Valid()
      ensures Distinct(toRemove)
      ensures forall q :: q in toRemove <==> InMatchedGroup(grid.Board(), minimumChainLength, q)
      ensures forall q :: q in toRemove ==> OnBoard(grid.Board(), q) && !grid.Board()[q.x][q.y].IsEmpty()
    {
      toRemove := [];
      var checked := new bool[grid.width, grid.height]((x, y) => false);
      ghost var b := grid.Board();
      assert TrueCells(checked) == {};
      ScanStart(b, minimumChainLength);
      for x := 0 to grid.width
        invariant ScanInv(b, minimumChainLength, x, 0, TrueCells(checked), toRemove)
      {
        toRemove := ScanColumn(x, checked, toRemove, b);
        ScanNextColumn(b, minimumChainLength, x, grid.height, TrueCells(checked), toRemove);
      }
      ScanDone(b, minimumChainLength, TrueCells(checked), toRemove);
      forall q | q in toRemove
        ensures OnBoard(b, q) && !b[q.x][q.y].IsEmpty()
      {
        MatchedCellOccupied(b, minimumChainLength, q);
      }
    }

    /**
     * The inner loop of FindMatchingPuyos over column x: an unchecked cell
     * that can match has its group marked as checked, and the group is
     * appended when it holds at least minimumChainLength cells.
     */
    method ScanColumn(x: int, checked: array2<bool>, toRemove0: seq<Pos>, ghost b: Board) returns (toRemove: seq<Pos>)
      requires grid.Valid() && b == grid.Board() && 0 <= x < grid.width
      requires checked.Length0 == grid.width && checked.Length1 == grid.height
      requires ScanInv(b, minimumChainLength, x, 0, TrueCells(checked), toRemove0)
      modifies checked
      ensures ScanInv(b, minimumChainLength, x, grid.height, TrueCells(checked), toRemove)
    {
      toRemove := toRemove0;
      var min := minimumChainLength;
      for y := 0 to grid.height
        invariant ScanInv(b, min, x, y, TrueCells(checked), toRemove)
      {
        var pos := Pos(x, y);
        ghost var before := TrueCells(checked);
        if checked[x, y] {
          assert pos in before;
          ScanStepChecked(b, min, x, y, before, toRemove);
          continue;
        }
        assert pos !in before;
        var puyo := grid.GetPuyo(pos).value;
        if !puyo.CanMatch() {
          ScanStepSkip(b, min, x, y, before, toRemove);
          continue;
        }
        var connected := grid.GetConnectedPuyos(pos, puyo.color);
        assert forall q :: q in connected <==> q in Group(b, pos);
        ScanStepFill(b, min, x, y, before, toRemove, connected);
        forall i | 0 <= i < |connected|
          ensures 0 <= connected[i].x < checked.Length0 && 0 <= connected[i].y < checked.Length1
        {
          GroupShared(b, pos, connected[i]);
        }
        MarkAll(checked, connected);
        SetOfMembers(TrueCells(checked), before, Group(b, pos), connected);
        if |connected| >= min {
          toRemove := toRemove + connected;
        }
      }
    }

    /** RemovePuyo on each listed position, in order. */
    method RemovePuyos(positions: seq<Pos>)
      requires grid.Valid()
      modifies grid.grid
      ensures grid.Valid()
      ensures grid.Board() == RemoveAll(old(grid.Board()), positions)
    {
      for i := 0 to |positions|
        invariant grid.Valid()
        invariant grid.Board() == RemoveAll(old(grid.Board()), positions[..i])
      {
        assert positions[..i + 1][..i] == positions[..i];
        grid.RemovePuyo(positions[i]);
      }
      assert positions[..|positions|] == positions;
    }

    /**
     * Repeated passes that move every non-empty cell with an empty cell below
     * it down one row, until a pass moves nothing. Each column keeps its
     * stones in order and ends settled; a settled board is left unchanged.
     */
    method ApplyGravity()
      requires grid.Valid()
      modifies grid.grid
      ensures grid.Valid()
      ensures SameStones(grid.Board(), old(grid.Board()))
      ensures AllSettled(grid.Board())
      ensures AllSettled(old(grid.Board())) ==> grid.Board() == old(grid.Board())
    {
      ghost var b0 := grid.Board();
      var puyosFell := true;
      while puyosFell
        invariant grid.Valid()
        invariant SameStones(grid.Board(), b0)
        invariant !puyosFell ==> AllSettled(grid.Board())
        invariant AllSettled(b0) ==> grid.Board() == b0
        decreases BoardPot(grid.Board()), puyosFell
      {
        puyosFell := false;
        ghost var passStart := grid.Board();
        PassStart(b0, passStart);
        for x := 0 to grid.width
          invariant grid.Valid()
          invariant PassInv(b0, passStart, grid.Board(), x, 1, puyosFell)
        {
          puyosFell := GravityColumn(x, b0, passStart, puyosFell);
        }
        PassDone(b0, passStart, grid.Board(), puyosFell);
      }
    }

    /**
     * The inner loop of one gravity pass over column x, bottom to top: a
     * non-empty cell above an empty one moves down one row.
     */
    method GravityColumn(x: int, ghost b0: Board, ghost passStart: Board, fell0: bool) returns (fell: bool)
      requires grid.Valid() && 0 <= x < grid.width
      requires PassInv(b0, passStart, grid.Board(), x, 1, fell0)
      modifies grid.grid
      ensures grid.Valid()
      ensures PassInv(b0, passStart, grid.Board(), x + 1, 1, fell)
      ensures fell0 ==> fell
    {
      fell := fell0;
      var y := 1;
      while y < grid.height
        invariant grid.Valid()
        invariant 1 <= y && (y <= grid.height || y == 1)
        invariant PassInv(b0, passStart, grid.Board(), x, y, fell)
        invariant fell0 ==> fell
      {
        var puyo := grid.GetPuyo(Pos(x, y)).value;
        var belowPos := Pos(x, y - 1);
        if !puyo.IsEmpty() && grid.IsPositionEmpty(belowPos) {
          PassMove(b0, passStart, grid.Board(), x, y, fell, puyo.(gridPosition := belowPos));
          grid.SetPuyo(belowPos, puyo);
          grid.RemovePuyo(Pos(x, y));
          fell := true;
        } else {
          PassSkip(b0, passStart, grid.Board(), x, y, fell);
        }
        y := y + 1;
      }
      PassNextColumn(b0, passStart, grid.Board(), x, y, fell);
    }

    /**
     * SpawnNextPuyo without the pair's colours: nothing happens while the
     * game is inactive or chains are being processed; otherwise IsGameOver
     * decides between ending the game and spawning a new pair. As written
     * IsGameOver holds on every board (IsGameOverAlwaysTrue), so the game
     * always ends and the spawn is never reached.
     */
    method SpawnNextPuyo() returns (spawned: bool)
      requires grid.Valid()
      modifies this
      ensures spawned <==> old(gameActive) && !isProcessingChains && !IsGameOver()
      ensures gameActive == (old(gameActive) && (isProcessingChains || !IsGameOver()))
      ensures !spawned && gameActive == (old(gameActive) && isProcessingChains)
      ensures hasFallingPuyo == old(hasFallingPuyo)
      ensures isProcessingChains == old(isProcessingChains)
    {
      if !gameActive || isProcessingChains {
        return false;
      }
      if IsGameOver() {
        gameActive := false;
        return false;
      }
      assert false;
    }

    /**
     * SpawnNextPuyo with the corrected game-over test: a blocked spawn cell
     * ends the game, and a free one spawns a new pair.
     */
    method SpawnNextPuyoCorrected() returns (spawned: bool)
      requires grid.Valid()
      modifies this
      ensures spawned <==> old(gameActive) && !isProcessingChains && !IsGameOverCorrected()
      ensures gameActive == (old(gameActive) && (isProcessingChains || !IsGameOverCorrected()))
      ensures hasFallingPuyo == (old(hasFallingPuyo) || spawned)
      ensures isProcessingChains == old(isProcessingChains)
    {
      if !gameActive || isProcessingChains {
        return false;
      }
      if IsGameOverCorrected() {
        gameActive := false;
        return false;
      }
      hasFallingPuyo := true;
      return true;
    }

    /**
     * The chain loop: gravity, then rounds of find, remove and gravity until
     * no group is left. chainCount is the number of rounds and totalCleared
     * the cells they removed, which is exactly the number of stones that left
     * the board. The completion event carries both and happens exactly when
     * a round ran; then SpawnNextPuyo ends the game.
     */
    method ProcessChains() returns (chainCount: int, totalCleared: int, completed: Option<(int, int)>, spawned: bool,
                                    ghost boards: seq<Board>, ghost rounds: seq<seq<Pos>>)
      requires grid.Valid()
      modifies this, grid.grid
      ensures grid.Valid()
      ensures ChainRun(old(grid.Board()), minimumChainLength, boards, rounds) && grid.Board() == boards[|rounds|]
      ensures chainCount == |rounds| && totalCleared == Cleared(rounds)
      ensures AllSettled(grid.Board()) && NoMatches(grid.Board(), minimumChainLength)
      ensures totalCleared + StoneCount(grid.Board()) == StoneCount(old(grid.Board()))
      ensures 0 <= chainCount <= totalCleared
      ensures completed == if chainCount > 0 then Some((chainCount, totalCleared)) else None
      ensures completed.Some? <==> |rounds| > 0
      ensures !isProcessingChains
      ensures spawned <==> old(gameActive) && !IsGameOver()
      ensures !spawned && !gameActive && hasFallingPuyo == old(hasFallingPuyo)
    {
      isProcessingChains := true;
      chainCount, totalCleared, boards, rounds := ResolveChains();
      ghost var bEnd := grid.Board();
      completed, spawned := CompleteChains(chainCount, totalCleared);
      assert grid.Board() == bEnd;
    }

    /**
     * The end of ProcessChains: the completion event when at least one round
     * ran, then the flag is cleared and SpawnNextPuyo ends the game.
     */
    method CompleteChains(chainCount: int, totalCleared: int) returns (completed: Option<(int, int)>, spawned: bool)
      requires grid.Valid()
      modifies this
      ensures completed == if chainCount > 0 then Some((chainCount, totalCleared)) else None
      ensures !isProcessingChains
      ensures spawned <==> old(gameActive) && !IsGameOver()
      ensures !spawned && !gameActive && hasFallingPuyo == old(hasFallingPuyo)
    {
      if chainCount > 0 {
        completed := Some((chainCount, totalCleared));
      } else {
        completed := None;
      }
      isProcessingChains := false;
      spawned := SpawnNextPuyo();
    }

    /**
     * The loop of ProcessChains: gravity, then find, remove and gravity
     * until no group is left, counting the rounds and the cells removed.
     */
    method ResolveChains() returns (chainCount: int, totalCleared: int, ghost boards: seq<Board>, ghost rounds: seq<seq<Pos>>)
      requires grid.Valid()
      modifies grid.grid
      ensures grid.Valid()
      ensures ChainRun(old(grid.Board()), minimumChainLength, boards, rounds) && grid.Board() == boards[|rounds|]
      ensures chainCount == |rounds| && totalCleared == Cleared(rounds)
      ensures AllSettled(grid.Board()) && NoMatches(grid.Board(), minimumChainLength)
      ensures totalCleared + StoneCount(grid.Board()) == StoneCount(old(grid.Board()))
      ensures 0 <= chainCount <= totalCleared
    {
      ghost var b0 := grid.Board();
      ApplyGravity();
      ghost var b1 := grid.Board();
      chainCount, totalCleared, boards, rounds := RunRounds();
      assert ChainRun(b0, minimumChainLength, boards, rounds);
      RoundsConserve(boards, rounds, minimumChainLength);
      SameStonesCount(b1, b0);
    }

    /**
     * The while loop of ProcessChains on a settled board: a round of find,
     * remove and gravity after another until no group is left.
     */
    method RunRounds() returns (chainCount: int, totalCleared: int, ghost boards: seq<Board>, ghost rounds: seq<seq<Pos>>)
      requires grid.Valid() && AllSettled(grid.Board())
      modifies grid.grid
      ensures grid.Valid()
      ensures Rounds(boards, rounds, minimumChainLength) && boards[0] == old(grid.Board())
      ensures grid.Board() == boards[|rounds|] && AllSettled(grid.Board()) && NoMatches(grid.Board(), minimumChainLength)
      ensures chainCount == |rounds| && totalCleared == Cleared(rounds)
    {
      chainCount, totalCleared := 0, 0;
      boards, rounds := [grid.Board()], [];
      while true
        invariant grid.Valid()
        invariant Rounds(boards, rounds, minimumChainLength) && boards[0] == old(grid.Board())
        invariant grid.Board() == boards[|rounds|] && AllSettled(grid.Board())
        invariant chainCount == |rounds| && totalCleared == Cleared(rounds)
        decreases StoneCount(grid.Board())
      {
        ghost var b := grid.Board();
        var puyosToRemove := FindMatchingPuyos();
        if |puyosToRemove| == 0 {
          assert NoMatches(grid.Board(), minimumChainLength);
          break;
        }
        chainCount := chainCount + 1;
        totalCleared := totalCleared + |puyosToRemove|;
        ClearAndSettle(puyosToRemove);
        assert Round(b, minimumChainLength, puyosToRemove, grid.Board());
        RoundsSnoc(boards, rounds, minimumChainLength, puyosToRemove, grid.Board());
        boards, rounds := boards + [grid.Board()], rounds + [puyosToRemove];
      }
    }

    /**
     * The rest of a chain round: RemovePuyos and then ApplyGravity (the
     * chain delay between them is time only). The board settles with the
     * stones the removal left, so the stone count drops by the number of
     * cells removed.
     */
    method ClearAndSettle(ps: seq<Pos>)
      requires grid.Valid() && Distinct(ps)
      requires forall q :: q in ps ==> OnBoard(grid.Board(), q) && !grid.Board()[q.x][q.y].IsEmpty()
      modifies grid.grid
      ensures grid.Valid() && AllSettled(grid.Board())
      ensures SameStones(grid.Board(), RemoveAll(old(grid.Board()), ps))
      ensures StoneCount(grid.Board()) + |ps| == StoneCount(old(grid.Board()))
    {
      ghost var b1 := grid.Board();
      RemovePuyos(ps);
      ApplyGravity();
      RoundCount(b1, ps, grid.Board());
    }

    /**
     * A landed pair: the pair itself is gone, and while the game is active
     * the chains are resolved from the landed board and SpawnNextPuyo ends
     * the game.
     */
    method OnPuyoLanded() returns (processed: bool, ghost boards: seq<Board>, ghost rounds: seq<seq<Pos>>)
      requires grid.Valid()
      modifies this, grid.grid
      ensures grid.Valid()
      ensures processed == old(gameActive)
      ensures !processed ==> grid.Board() == old(grid.Board()) && !hasFallingPuyo && !gameActive
      ensures processed ==> ChainRun(old(grid.Board()), minimumChainLength, boards, rounds) && grid.Board() == boards[|rounds|]
      ensures processed ==> AllSettled(grid.Board()) && NoMatches(grid.Board(), minimumChainLength) && !gameActive
      ensures isProcessingChains == (old(isProcessingChains) && !processed)
    {
      hasFallingPuyo := false;
      boards, rounds := [grid.Board()], [];
      if !gameActive {
        return false, boards, rounds;
      }
      var chainCount, totalCleared, completed, spawned;
      chainCount, totalCleared, completed, spawned, boards, rounds := ProcessChains();
      return true, boards, rounds;
    }

    /** Stops play and discards the falling pair. */
    method StopGame()
      modifies this
      ensures !gameActive && !hasFallingPuyo
      ensures isProcessingChains == old(isProcessingChains)
    {
      gameActive := false;
      hasFallingPuyo := false;
    }

    /**
     * Resumes play, calling SpawnNextPuyo when no pair is falling and no
     * chain is being processed; that call ends the game again.
     */
    method ResumeGame() returns (spawned: bool)
      requires grid.Valid()
      modifies this
      ensures spawned <==> !old(hasFallingPuyo) && !old(isProcessingChains) && !IsGameOver()
      ensures gameActive == (old(hasFallingPuyo) || old(isProcessingChains) || !IsGameOver())
      ensures !spawned && gameActive == (old(hasFallingPuyo) || old(isProcessingChains))
      ensures hasFallingPuyo == old(hasFallingPuyo) && isProcessingChains == old(isProcessingChains)
    {
      gameActive := true;
      if !hasFallingPuyo && !isProcessingChains {
        spawned := SpawnNextPuyo();
      } else {
        spawned := false;
      }
    }
  }
}
