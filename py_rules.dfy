/**
 * Board-level rules of src/puzzle/puyo_grid.py that sit beside the chain
 * logic: the authentic game-over test and loading a board from nested lists.
 */
module PyRules {
  import opened PyBoard

  // ---------------------------------------------------------------------
  // is_authentic_game_over
  // ---------------------------------------------------------------------

  /** can_place_puyo on a board value: on the board and empty. */
  predicate Placeable(g: Grid, x: int, y: int) {
    InBounds(g, PuyoPosition(x, y)) && Get(g, PuyoPosition(x, y)) == Empty
  }

  /** The top cell of column x holds a puyo (is_empty(x, 0) is false). */
  predicate TopBlocked(g: Grid, x: int) {
    Get(g, PuyoPosition(x, 0)) != Empty
  }

  /** How many of the columns 0 .. n - 1 have a puyo in the top row. */
  function TopRowCount(g: Grid, n: int): (r: nat)
    ensures r <= if n < 0 then 0 else n
  {
    if n <= 0 then 0 else TopRowCount(g, n - 1) + (if TopBlocked(g, n - 1) then 1 else 0)
  }

  /** How many of the listed columns are on the board and have a puyo in the top row. */
  function BlockedAmong(g: Grid, cols: seq<int>): (r: nat)
    ensures r <= |cols|
  {
    if |cols| == 0 then 0
    else BlockedAmong(g, cols[..|cols| - 1]) + (if 0 <= cols[|cols| - 1] < |g| && TopBlocked(g, cols[|cols| - 1]) then 1 else 0)
  }

  /** The column the pair spawns in (width // 2). */
  function SpawnX(g: Grid): int {
    |g| / 2
  }

  /** The three centre columns around the spawn column. */
  function CenterColumns(g: Grid): seq<int> {
    [SpawnX(g) - 1, SpawnX(g), SpawnX(g) + 1]
  }

  /**
   * is_authentic_game_over, rule by rule: the main spawn cell (spawn, 1) or
   * the sub spawn cell (spawn, 0) cannot take a puyo, at least half the top
   * row is occupied, or all three centre columns are occupied at the top.
   */
  predicate AuthenticGameOver(g: Grid) {
    !Placeable(g, SpawnX(g), 1) ||
    !Placeable(g, SpawnX(g), 0) ||
    TopRowCount(g, |g|) >= |g| / 2 ||
    BlockedAmong(g, CenterColumns(g)) >= 3
  }

  /** The centre-column rule never decides anything: it implies the sub spawn cell is taken. */
  lemma CenterRuleRedundant(g: Grid)
    ensures AuthenticGameOver(g) <==>
      !Placeable(g, SpawnX(g), 1) || !Placeable(g, SpawnX(g), 0) || TopRowCount(g, |g|) >= |g| / 2
  {
    var cs := CenterColumns(g);
    if BlockedAmong(g, cs) >= 3 {
      assert cs[..2][..1] == [cs[0]] && cs[..2] == [cs[0], cs[1]] && cs[..3] == cs;
      assert BlockedAmong(g, cs) == BlockedAmong(g, cs[..2]) + (if 0 <= cs[2] < |g| && TopBlocked(g, cs[2]) then 1 else 0);
      assert BlockedAmong(g, cs[..2]) == BlockedAmong(g, [cs[0]]) + (if 0 <= cs[1] < |g| && TopBlocked(g, cs[1]) then 1 else 0);
      assert TopBlocked(g, cs[1]);
    }
  }

  /**
   * An empty board is over only when it is too small to play on: fewer than
   * two columns (half of the top row is then zero cells) or fewer than two rows.
   */
  lemma BlankGameOver(width: nat, height: nat)
    ensures AuthenticGameOver(BlankGrid(width, height)) <==> width < 2 || height < 2
  {
    var g := BlankGrid(width, height);
    TopRowCountOfBlank(g, width, height, width);
    CenterRuleRedundant(g);
  }

  lemma {:induction false} TopRowCountOfBlank(g: Grid, width: nat, height: nat, n: int)
    requires g == BlankGrid(width, height) && n <= width
    ensures TopRowCount(g, n) == 0
    decreases n
  {
    if n > 0 {
      TopRowCountOfBlank(g, width, height, n - 1);
    }
  }

  /** g2 has the same shape as g and holds a puyo wherever g does. */
  predicate HoldsAtLeast(g: Grid, g2: Grid) {
    |g2| == |g| &&
    (forall x :: 0 <= x < |g| ==> |g2[x]| == |g[x]|) &&
    forall x, y :: 0 <= x < |g| && 0 <= y < |g[x]| && g[x][y] != Empty ==> g2[x][y] != Empty
  }

  lemma {:induction false} TopRowCountMonotone(g: Grid, g2: Grid, n: int)
    requires HoldsAtLeast(g, g2)
    ensures TopRowCount(g, n) <= TopRowCount(g2, n)
    decreases n
  {
    if n > 0 {
      TopRowCountMonotone(g, g2, n - 1);
    }
  }

  /** Adding puyos never ends a game-over: the test is monotone in the occupied cells. */
  lemma GameOverMonotone(g: Grid, g2: Grid)
    requires HoldsAtLeast(g, g2)
    requires AuthenticGameOver(g)
    ensures AuthenticGameOver(g2)
  {
    CenterRuleRedundant(g);
    CenterRuleRedundant(g2);
    TopRowCountMonotone(g, g2, |g|);
  }

  // ---------------------------------------------------------------------
  // load_grid
  // ---------------------------------------------------------------------

  datatype LoadResult = LoadResult(ok: bool, board: Grid)

  /** The first column whose length is not height, or |data| when there is none. */
  function FirstBadColumn(data: seq<seq<PuyoType>>, height: int, from: nat): (r: nat)
    requires from <= |data|
    ensures from <= r <= |data|
    ensures forall x :: from <= x < r ==> |data[x]| == height
    ensures r < |data| ==> |data[r]| != height
    decreases |data| - from
  {
    if from == |data| then from
    else if |data[from]| != height then from
    else FirstBadColumn(data, height, from + 1)
  }

  /**
   * load_grid as written: a wrong width is rejected before anything is
   * written, but the columns are checked one at a time, so the columns
   * before the first one of the wrong height are already copied when it
   * returns False.
   */
  function LoadAsWritten(g: Grid, data: seq<seq<PuyoType>>, height: int): (r: LoadResult)
  {
    if |data| != |g| then LoadResult(false, g)
    else
      var k := FirstBadColumn(data, height, 0);
      LoadResult(k == |data|, data[..k] + g[k..])
  }

  /** load_grid as intended: every dimension checked first, and a rejected board left as it was. */
  function LoadChecked(g: Grid, data: seq<seq<PuyoType>>, height: int): (r: LoadResult)
  {
    if Rectangular(data, |g|, height) then LoadResult(true, data) else LoadResult(false, g)
  }

  /** The intended load accepts exactly the data of the board's dimensions, and a rejection changes nothing. */
  lemma LoadCheckedSpec(g: Grid, data: seq<seq<PuyoType>>, height: int)
    ensures LoadChecked(g, data, height).ok <==> Rectangular(data, |g|, height)
    ensures LoadChecked(g, data, height).ok ==> LoadChecked(g, data, height).board == data
    ensures !LoadChecked(g, data, height).ok ==> LoadChecked(g, data, height).board == g
  {
  }

  /** Both readings accept the same data, and agree whenever the data is accepted or has the wrong width. */
  lemma LoadAgreesWhenAccepted(g: Grid, data: seq<seq<PuyoType>>, height: int)
    ensures LoadAsWritten(g, data, height).ok == LoadChecked(g, data, height).ok
    ensures LoadAsWritten(g, data, height).ok || |data| != |g| ==> LoadAsWritten(g, data, height) == LoadChecked(g, data, height)
  {
    if |data| == |g| {
      var k := FirstBadColumn(data, height, 0);
      if k == |data| {
        assert data[..k] + g[k..] == data;
      } else {
        assert !Rectangular(data, |g|, height);
      }
    }
  }

  /** Loading a copy of a rectangular board succeeds and gives the same board back. */
  lemma LoadCopyRoundTrip(g: Grid, height: int)
    requires Rectangular(g, |g|, height)
    ensures LoadAsWritten(g, g, height) == LoadResult(true, g)
  {
    LoadAgreesWhenAccepted(g, g, height);
  }

  /** A board that load_grid as written changes although it returns False. */
  lemma LoadPartialOnReject(g: Grid, data: seq<seq<PuyoType>>)
    requires g == [[Empty], [Empty]] && data == [[Red], []]
    ensures !LoadAsWritten(g, data, 1).ok
    ensures LoadAsWritten(g, data, 1).board == [[Red], [Empty]] != g
    ensures LoadChecked(g, data, 1) == LoadResult(false, g)
  {
    assert FirstBadColumn(data, 1, 1) == 1;
    assert FirstBadColumn(data, 1, 0) == 1;
    assert data[..1] + g[1..] == [[Red], [Empty]];
    assert !Rectangular(data, |g|, 1) by {
      assert |data[1]| != 1;
    }
  }
}
