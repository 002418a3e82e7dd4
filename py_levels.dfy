/**
 * Elimination and chain levels of the Python puzzle grid
 * (src/puzzle/puyo_grid.py): emptying a set of cells, the number of puyos on
 * the board, and what one level of execute_full_chain_sequence and
 * execute_chain_elimination do to the board.
 */
module PyLevels {
  import opened PyBoard
  import opened PyChains

  // ---------------------------------------------------------------------
  // Emptying cells
  // ---------------------------------------------------------------------

  /** The board with every cell of ps emptied; positions off the board are ignored. */
  function ClearCells(g: Grid, ps: set<PuyoPosition>): (r: Grid)
    ensures |r| == |g| && forall x :: 0 <= x < |g| ==> |r[x]| == |g[x]|
    ensures forall x, y :: 0 <= x < |g| && 0 <= y < |g[x]| ==>
      r[x][y] == if PuyoPosition(x, y) in ps then Empty else g[x][y]
  {
    seq(|g|, x requires 0 <= x < |g| =>
      seq(|g[x]|, y requires 0 <= y < |g[x]| => if PuyoPosition(x, y) in ps then Empty else g[x][y]))
  }

  /** The cells of ps that hold a puyo: what eliminate_puyos counts. */
  function Occupied(g: Grid, ps: set<PuyoPosition>): set<PuyoPosition> {
    set p | p in ps && InBounds(g, p) && g[p.x][p.y] != Empty
  }

  lemma ClearNothing(g: Grid)
    ensures ClearCells(g, {}) == g
  {
    var r := ClearCells(g, {});
    forall x | 0 <= x < |g|
      ensures r[x] == g[x]
    {
    }
  }

  /** Emptying one more cell is a set_puyo of Empty there (a no-op off the board). */
  lemma ClearOneMore(g: Grid, done: set<PuyoPosition>, p: PuyoPosition)
    ensures ClearCells(g, done + {p}) == Put(ClearCells(g, done), p, Empty)
  {
    var a := ClearCells(g, done + {p});
    var b := Put(ClearCells(g, done), p, Empty);
    assert |a| == |b|;
    forall x | 0 <= x < |g|
      ensures a[x] == b[x]
    {
    }
  }

  /** Writing Empty over an empty or off-board cell changes nothing. */
  lemma PutEmptyOverEmpty(g: Grid, p: PuyoPosition)
    requires Get(g, p) == Empty
    ensures Put(g, p, Empty) == g
  {
    if InBounds(g, p) {
      assert g[p.x][p.y := Empty] == g[p.x];
    }
  }

  lemma OccupiedOneMore(g: Grid, done: set<PuyoPosition>, p: PuyoPosition)
    requires p !in done
    ensures Occupied(g, done + {p}) == Occupied(g, done) + (if Get(g, p) != Empty then {p} else {})
    ensures p !in Occupied(g, done)
  {
  }

  /** Emptying a set is the same as emptying it in two parts. */
  lemma ClearTwice(g: Grid, a: set<PuyoPosition>, b: set<PuyoPosition>)
    ensures ClearCells(ClearCells(g, a), b) == ClearCells(g, a + b)
  {
    var l := ClearCells(ClearCells(g, a), b);
    var r := ClearCells(g, a + b);
    forall x | 0 <= x < |g|
      ensures l[x] == r[x]
    {
    }
  }

  /** Cells outside the emptied set keep their puyo, so they are still counted. */
  lemma OccupiedAfterClear(g: Grid, a: set<PuyoPosition>, b: set<PuyoPosition>)
    requires a !! b
    ensures Occupied(ClearCells(g, a), b) == Occupied(g, b)
  {
  }

  // ---------------------------------------------------------------------
  // Counting puyos
  // ---------------------------------------------------------------------

  /** The puyos on the board, column by column. */
  function StoneCount(g: Grid): nat {
    if |g| == 0 then 0 else StoneCount(g[..|g| - 1]) + |Filled(g[|g| - 1])|
  }

  /** Gravity moves puyos but never adds or removes one. */
  lemma {:induction false} StoneCountOfGravity(g: Grid)
    ensures StoneCount(Gravity(g)) == StoneCount(g)
    decreases |g|
  {
    if |g| > 0 {
      var n := |g| - 1;
      assert Gravity(g)[..n] == Gravity(g[..n]);
      StoneCountOfGravity(g[..n]);
      CompactedKeepsOrder(g[n]);
    }
  }

  /** The cells holding a puyo. */
  function Stones(g: Grid): set<PuyoPosition> {
    set x, y | 0 <= x < |g| && 0 <= y < |g[x]| && g[x][y] != Empty :: PuyoPosition(x, y)
  }

  /** The cells of column x that hold a puyo, for the first n rows of s. */
  function ColumnStones(x: int, s: seq<PuyoType>, n: nat): set<PuyoPosition>
    requires n <= |s|
  {
    set y | 0 <= y < n && s[y] != Empty :: PuyoPosition(x, y)
  }

  lemma {:induction false} ColumnStonesCount(x: int, s: seq<PuyoType>, n: nat)
    requires n <= |s|
    ensures |ColumnStones(x, s, n)| == |Filled(s[..n])|
    decreases n
  {
    if n > 0 {
      ColumnStonesCount(x, s, n - 1);
      assert s[..n] == s[..n - 1] + [s[n - 1]];
      FilledAppend(s[..n - 1], [s[n - 1]]);
      assert [s[n - 1]][1..] == [];
      if s[n - 1] != Empty {
        assert ColumnStones(x, s, n) == ColumnStones(x, s, n - 1) + {PuyoPosition(x, n - 1)};
      } else {
        assert ColumnStones(x, s, n) == ColumnStones(x, s, n - 1);
      }
    }
  }

  /** The stone set and the column-by-column count agree. */
  lemma {:induction false} StonesCount(g: Grid)
    ensures |Stones(g)| == StoneCount(g)
    decreases |g|
  {
    if |g| > 0 {
      var n := |g| - 1;
      StonesCount(g[..n]);
      var col := ColumnStones(n, g[n], |g[n]|);
      ColumnStonesCount(n, g[n], |g[n]|);
      assert g[n][..|g[n]|] == g[n];
      assert Stones(g) == Stones(g[..n]) + col;
      assert Stones(g[..n]) !! col;
    }
  }

  /** Emptying cells removes exactly the puyos that were in them. */
  lemma StoneCountOfClear(g: Grid, ps: set<PuyoPosition>)
    ensures StoneCount(ClearCells(g, ps)) == StoneCount(g) - |Occupied(g, ps)|
  {
    StonesCount(g);
    StonesCount(ClearCells(g, ps));
    assert Stones(ClearCells(g, ps)) == Stones(g) - Occupied(g, ps);
    assert Occupied(g, ps) <= Stones(g);
  }

  /** Every cell of a big group holds a puyo. */
  lemma PoppableOccupied(g: Grid)
    ensures Occupied(g, Poppable(g)) == Poppable(g)
  {
    forall q | q in Poppable(g)
      ensures InBounds(g, q) && g[q.x][q.y] != Empty
    {
      GroupHasStart(g, q);
    }
  }

  // ---------------------------------------------------------------------
  // One chain level
  // ---------------------------------------------------------------------

  /** What one level leaves: the board, the puyos emptied and the level's base score. */
  datatype LevelOutcome = LevelOutcome(board: Grid, eliminated: int, score: int)

  /** The sum of the records' scores. */
  function SumScores(chains: seq<ChainResult>): int {
    if |chains| == 0 then 0 else SumScores(chains[..|chains| - 1]) + chains[|chains| - 1].score
  }

  /**
   * A level of execute_full_chain_sequence as written: for each record in
   * turn, empty its cells as found at the start of the level, count the
   * puyos that were still there, and apply gravity.
   */
  function LevelAsWritten(g: Grid, chains: seq<ChainResult>): LevelOutcome
    decreases |chains|
  {
    if |chains| == 0 then LevelOutcome(g, 0, 0)
    else
      var before := LevelAsWritten(g, chains[..|chains| - 1]);
      var c := chains[|chains| - 1];
      LevelOutcome(Gravity(ClearCells(before.board, c.eliminatedPuyos)),
                   before.eliminated + |Occupied(before.board, c.eliminatedPuyos)|,
                   before.score + c.score)
  }

  /**
   * A level as intended, and as execute_chain_elimination does it: empty
   * every record's cells, then apply gravity once.
   */
  function LevelCorrected(g: Grid, chains: seq<ChainResult>): LevelOutcome {
    LevelOutcome(Gravity(ClearCells(g, Covered(chains))), |Occupied(g, Covered(chains))|, SumScores(chains))
  }

  /** Either way, the puyos counted as eliminated are exactly the puyos that left the board. */
  lemma {:induction false} LevelAsWrittenConserves(g: Grid, chains: seq<ChainResult>)
    ensures StoneCount(LevelAsWritten(g, chains).board) == StoneCount(g) - LevelAsWritten(g, chains).eliminated
    ensures LevelAsWritten(g, chains).score == SumScores(chains)
    ensures |LevelAsWritten(g, chains).board| == |g|
    ensures forall x :: 0 <= x < |g| && |chains| > 0 ==> NoGap(LevelAsWritten(g, chains).board[x])
    decreases |chains|
  {
    if |chains| > 0 {
      var before := LevelAsWritten(g, chains[..|chains| - 1]);
      var c := chains[|chains| - 1];
      LevelAsWrittenConserves(g, chains[..|chains| - 1]);
      StoneCountOfClear(before.board, c.eliminatedPuyos);
      StoneCountOfGravity(ClearCells(before.board, c.eliminatedPuyos));
      forall x | 0 <= x < |g|
        ensures NoGap(LevelAsWritten(g, chains).board[x])
      {
        CompactedNoGap(ClearCells(before.board, c.eliminatedPuyos)[x]);
      }
    }
  }

  /**
   * The intended level removes every puyo of every big group found,
   * counts each once, and leaves a settled board with the rest.
   */
  lemma LevelCorrectedRemovesPoppable(g: Grid, chains: seq<ChainResult>)
    requires ChainsOf(g, chains)
    ensures LevelCorrected(g, chains).eliminated == |Poppable(g)|
    ensures StoneCount(LevelCorrected(g, chains).board) == StoneCount(g) - |Poppable(g)|
    ensures LevelCorrected(g, chains).board == Gravity(ClearCells(g, Poppable(g)))
  {
    ChainsCoverPoppable(g, chains);
    PoppableOccupied(g);
    StoneCountOfClear(g, Poppable(g));
    StoneCountOfGravity(ClearCells(g, Poppable(g)));
  }

  /** A board and count reached by emptying every record's cells and applying gravity once. */
  lemma CorrectedLevelOf(g: Grid, chains: seq<ChainResult>, board: Grid, eliminated: int, recorded: set<(int, int)>)
    requires ChainsOf(g, chains)
    requires board == Gravity(ClearCells(g, Covered(chains)))
    requires eliminated == |Occupied(g, Covered(chains))|
    requires recorded == {} + Coords(Covered(chains))
    ensures board == LevelCorrected(g, chains).board
    ensures board == Gravity(ClearCells(g, Poppable(g)))
    ensures eliminated == |Poppable(g)|
    ensures recorded == Coords(Poppable(g))
  {
    LevelCorrectedRemovesPoppable(g, chains);
    ChainsCoverPoppable(g, chains);
  }

  /** With a single group the two readings agree. */
  lemma LevelsAgreeOnOneGroup(g: Grid, c: ChainResult)
    ensures LevelAsWritten(g, [c]) == LevelCorrected(g, [c])
  {
    assert [c][..0] == [];
    assert LevelAsWritten(g, []) == LevelOutcome(g, 0, 0);
    assert Covered([c]) == c.eliminatedPuyos;
    assert SumScores([c]) == c.score;
  }

  /** The recorded (x, y) pairs of a set of positions, as _record_chain_positions stores them. */
  function Coords(ps: set<PuyoPosition>): (r: set<(int, int)>)
    ensures forall p :: p in ps ==> (p.x, p.y) in r
    ensures forall c :: c in r ==> PuyoPosition(c.0, c.1) in ps
  {
    set p | p in ps :: (p.x, p.y)
  }

  lemma CoordsUnion(a: set<PuyoPosition>, b: set<PuyoPosition>)
    ensures Coords(a + b) == Coords(a) + Coords(b)
  {
  }

  /** One more record, seen from the prefix it extends. */
  lemma PrefixStep(g: Grid, chains: seq<ChainResult>, i: int)
    requires 0 <= i < |chains|
    ensures Covered(chains[..i + 1]) == Covered(chains[..i]) + chains[i].eliminatedPuyos
    ensures SumScores(chains[..i + 1]) == SumScores(chains[..i]) + chains[i].score
    ensures var before := LevelAsWritten(g, chains[..i]);
      LevelAsWritten(g, chains[..i + 1]) ==
        LevelOutcome(Gravity(ClearCells(before.board, chains[i].eliminatedPuyos)),
                     before.eliminated + |Occupied(before.board, chains[i].eliminatedPuyos)|,
                     before.score + chains[i].score)
  {
    assert chains[..i + 1][..i] == chains[..i];
  }

  /** One more group emptied on top of the groups before it, as execute_chain_elimination does. */
  lemma CorrectedStep(g: Grid, chains: seq<ChainResult>, i: int)
    requires 0 <= i < |chains|
    requires forall a, b :: 0 <= a < b < |chains| ==> chains[a].eliminatedPuyos !! chains[b].eliminatedPuyos
    ensures ClearCells(ClearCells(g, Covered(chains[..i])), chains[i].eliminatedPuyos) == ClearCells(g, Covered(chains[..i + 1]))
    ensures |Occupied(g, Covered(chains[..i]))| + |Occupied(ClearCells(g, Covered(chains[..i])), chains[i].eliminatedPuyos)|
      == |Occupied(g, Covered(chains[..i + 1]))|
    ensures SumScores(chains[..i + 1]) == SumScores(chains[..i]) + chains[i].score
    ensures Coords(Covered(chains[..i + 1])) == Coords(Covered(chains[..i])) + Coords(chains[i].eliminatedPuyos)
  {
    var done := Covered(chains[..i]);
    var c := chains[i].eliminatedPuyos;
    PrefixStep(g, chains, i);
    CoveredBeforeDisjoint(chains, i);
    ClearTwice(g, done, c);
    OccupiedAfterClear(g, done, c);
    OccupiedDisjointUnion(g, done, c);
    CoordsUnion(done, c);
  }

  /** Records that are pairwise disjoint: a record shares no cell with those before it. */
  lemma CoveredBeforeDisjoint(chains: seq<ChainResult>, i: int)
    requires 0 <= i < |chains|
    requires forall a, b :: 0 <= a < b < |chains| ==> chains[a].eliminatedPuyos !! chains[b].eliminatedPuyos
    ensures Covered(chains[..i]) !! chains[i].eliminatedPuyos
  {
    forall q | q in Covered(chains[..i])
      ensures q !in chains[i].eliminatedPuyos
    {
      CoveredHasRecord(chains[..i], q);
      var a :| 0 <= a < i && q in chains[..i][a].eliminatedPuyos;
      assert chains[..i][a] == chains[a];
    }
  }

  /** Occupied cells of two disjoint sets add up. */
  lemma OccupiedDisjointUnion(g: Grid, a: set<PuyoPosition>, b: set<PuyoPosition>)
    requires a !! b
    ensures |Occupied(g, a + b)| == |Occupied(g, a)| + |Occupied(g, b)|
  {
    assert Occupied(g, a + b) == Occupied(g, a) + Occupied(g, b);
    assert Occupied(g, a) !! Occupied(g, b);
  }

  /** Every cell a record of find_all_chains names holds a puyo when the level starts. */
  lemma RecordOccupied(g: Grid, c: ChainResult)
    requires IsChain(g, c)
    ensures Occupied(g, c.eliminatedPuyos) == c.eliminatedPuyos
  {
    forall q | q in c.eliminatedPuyos
      ensures q in Occupied(g, c.eliminatedPuyos)
    {
      ChainIsGroupOfEachMember(g, c, q);
    }
  }

  /** A level as written empties at least the cells its first record counted at the start. */
  lemma {:induction false} EliminatedAtLeastFirst(g: Grid, chains: seq<ChainResult>)
    requires |chains| > 0
    ensures LevelAsWritten(g, chains).eliminated >= |Occupied(g, chains[0].eliminatedPuyos)|
    decreases |chains|
  {
    var front := chains[..|chains| - 1];
    if |chains| == 1 {
      assert front == [];
    } else {
      assert front[0] == chains[0];
      EliminatedAtLeastFirst(g, front);
    }
  }

  /**
   * Even as written, a level with at least one group removes at least
   * MIN_CHAIN_LENGTH puyos, so execute_full_chain_sequence always ends.
   */
  lemma LevelAsWrittenProgress(g: Grid, chains: seq<ChainResult>)
    requires ChainsOf(g, chains) && |chains| > 0
    ensures LevelAsWritten(g, chains).eliminated >= MinChainLength
    ensures StoneCount(LevelAsWritten(g, chains).board) <= StoneCount(g) - MinChainLength
  {
    EliminatedAtLeastFirst(g, chains);
    RecordOccupied(g, chains[0]);
    var p :| IsChainAt(g, chains[0], p);
    LevelAsWrittenConserves(g, chains);
  }

  /** Every record find_all_chains returns is worth at least 40 points. */
  lemma RecordScoresAtLeast40(g: Grid, chains: seq<ChainResult>)
    requires ChainsOf(g, chains)
    ensures forall i :: 0 <= i < |chains| ==> chains[i].score >= 40
  {
    forall i | 0 <= i < |chains|
      ensures chains[i].score >= 40
    {
      var p :| IsChainAt(g, chains[i], p);
      AuthenticScoreAtLeast40(chains[i].puyoCount, chains[i].chainType);
    }
  }

  lemma {:induction false} SumScoresAtLeast(chains: seq<ChainResult>)
    requires forall i :: 0 <= i < |chains| ==> chains[i].score >= 40
    ensures SumScores(chains) >= 40 * |chains|
    decreases |chains|
  {
    if |chains| > 0 {
      SumScoresAtLeast(chains[..|chains| - 1]);
    }
  }

  /** A level bonus of execute_full_chain_sequence is never below the level's base score. */
  lemma LevelBonusAtLeastBase(levelScore: int, chainLevel: int)
    requires levelScore >= 0
    ensures Scaled(levelScore, ChainMultiplier(chainLevel)) >= levelScore
  {
    ChainMultiplierAtLeastOne(chainLevel);
    var m := ChainMultiplier(chainLevel);
    assert (levelScore as real) * m >= (levelScore as real) * 1.0;
    TruncMonotone((levelScore as real) * 1.0, (levelScore as real) * m);
  }

  // ---------------------------------------------------------------------
  // The whole chain sequence
  // ---------------------------------------------------------------------

  /** One level of execute_full_chain_sequence: a non-empty list of records, and the board the level as written leaves. */
  predicate LevelStep(g: Grid, chains: seq<ChainResult>, next: Grid) {
    chains != [] && next == LevelAsWritten(g, chains).board
  }

  /**
   * A run of levels: boards[k] is the board at the start of level k + 1,
   * levels[k] its records, boards[k + 1] what that level leaves.
   */
  predicate Cascade(boards: seq<Grid>, levels: seq<seq<ChainResult>>) {
    |boards| == |levels| + 1 &&
    forall k :: 0 <= k < |levels| ==> StepAt(boards, levels, k)
  }

  /** Level k + 1 of a run leads from boards[k] to boards[k + 1]. */
  predicate StepAt(boards: seq<Grid>, levels: seq<seq<ChainResult>>, k: int) {
    0 <= k < |levels| && k + 1 < |boards| && LevelStep(boards[k], levels[k], boards[k + 1])
  }

  /** Each level's records are what find_all_chains returns on the board the level starts from. */
  ghost predicate Found(boards: seq<Grid>, levels: seq<seq<ChainResult>>) {
    forall k {:trigger ChainsOf(boards[k], levels[k])} :: 0 <= k < |levels| && k < |boards| ==> ChainsOf(boards[k], levels[k])
  }

  /** The records of a single board, as a one-level run. */
  lemma FoundOne(g: Grid, chains: seq<ChainResult>)
    requires ChainsOf(g, chains)
    ensures Found([g], [chains])
  {
    assert [g][0] == g && [chains][0] == chains;
  }

  lemma FoundExtend(boards: seq<Grid>, levels: seq<seq<ChainResult>>, chains: seq<ChainResult>, next: Grid)
    requires |boards| == |levels| + 1
    requires Found(boards, levels) && Found([boards[|levels|]], [chains])
    ensures Found(boards + [next], levels + [chains])
  {
    var bs, ls := boards + [next], levels + [chains];
    forall k | 0 <= k < |ls| && k < |bs|
      ensures ChainsOf(bs[k], ls[k])
    {
      assert bs[k] == boards[k];
      if k < |levels| {
        assert ls[k] == levels[k];
        assert ChainsOf(boards[k], levels[k]);
      } else {
        assert ls[k] == [chains][0] && boards[k] == [boards[|levels|]][0];
        assert ChainsOf([boards[|levels|]][0], [chains][0]);
      }
    }
  }

  lemma FoundPrefix(boards: seq<Grid>, levels: seq<seq<ChainResult>>)
    requires |boards| == |levels| + 1 && |levels| > 0 && Found(boards, levels)
    ensures Found(boards[..|levels|], levels[..|levels| - 1])
  {
    var n := |levels|;
    forall k | 0 <= k < n - 1
      ensures ChainsOf(boards[..n][k], levels[..n - 1][k])
    {
      assert boards[..n][k] == boards[k] && levels[..n - 1][k] == levels[k];
      assert ChainsOf(boards[k], levels[k]);
    }
  }

  lemma FoundAt(boards: seq<Grid>, levels: seq<seq<ChainResult>>, k: int)
    requires 0 <= k < |levels| && k < |boards| && Found(boards, levels)
    ensures ChainsOf(boards[k], levels[k])
  {
  }

  /** The sequence's score: level k's base score times the multiplier of level k, truncated, summed. */
  function CascadeScore(levels: seq<seq<ChainResult>>): int {
    if |levels| == 0 then 0
    else CascadeScore(levels[..|levels| - 1]) + Scaled(SumScores(levels[|levels| - 1]), ChainMultiplier(|levels|))
  }

  /** The puyos the levels count as eliminated, level k counted on boards[k]. */
  function CascadeEliminated(boards: seq<Grid>, levels: seq<seq<ChainResult>>): int
    requires |levels| <= |boards|
  {
    if |levels| == 0 then 0
    else CascadeEliminated(boards, levels[..|levels| - 1]) + LevelAsWritten(boards[|levels| - 1], levels[|levels| - 1]).eliminated
  }

  /** Every position recorded over the levels. */
  function CascadeCoords(levels: seq<seq<ChainResult>>): set<(int, int)> {
    if |levels| == 0 then {} else CascadeCoords(levels[..|levels| - 1]) + Coords(Covered(levels[|levels| - 1]))
  }

  lemma CascadePrefix(boards: seq<Grid>, levels: seq<seq<ChainResult>>)
    requires Cascade(boards, levels) && |levels| > 0
    ensures Cascade(boards[..|levels|], levels[..|levels| - 1])
    ensures LevelStep(boards[|levels| - 1], levels[|levels| - 1], boards[|levels|])
  {
    var n := |levels|;
    var bs, ls := boards[..n], levels[..n - 1];
    forall k | 0 <= k < n - 1
      ensures StepAt(bs, ls, k)
    {
      assert StepAt(boards, levels, k);
    }
    assert StepAt(boards, levels, n - 1);
  }

  lemma {:induction false} CascadeEliminatedOfPrefix(boards: seq<Grid>, more: seq<Grid>, levels: seq<seq<ChainResult>>)
    requires |levels| <= |boards|
    ensures CascadeEliminated(boards + more, levels) == CascadeEliminated(boards, levels)
    decreases |levels|
  {
    if |levels| > 0 {
      CascadeEliminatedOfPrefix(boards, more, levels[..|levels| - 1]);
      assert (boards + more)[|levels| - 1] == boards[|levels| - 1];
    }
  }

  /** One more level appended to a run, and what it adds to each total. */
  lemma CascadeExtend(boards: seq<Grid>, levels: seq<seq<ChainResult>>, chains: seq<ChainResult>, next: Grid)
    requires Cascade(boards, levels)
    requires LevelStep(boards[|levels|], chains, next)
    ensures Cascade(boards + [next], levels + [chains])
    ensures CascadeScore(levels + [chains]) == CascadeScore(levels) + Scaled(SumScores(chains), ChainMultiplier(|levels| + 1))
    ensures CascadeEliminated(boards + [next], levels + [chains])
      == CascadeEliminated(boards, levels) + LevelAsWritten(boards[|levels|], chains).eliminated
    ensures CascadeCoords(levels + [chains]) == CascadeCoords(levels) + Coords(Covered(chains))
  {
    var bs, ls := boards + [next], levels + [chains];
    forall k | 0 <= k < |ls|
      ensures StepAt(bs, ls, k)
    {
      if k < |levels| {
        assert StepAt(boards, levels, k);
        assert bs[k] == boards[k] && bs[k + 1] == boards[k + 1] && ls[k] == levels[k];
      } else {
        assert bs[k] == boards[|levels|] && bs[k + 1] == next && ls[k] == chains;
      }
    }
    assert ls[..|levels|] == levels;
    CascadeEliminatedOfPrefix(boards, [next], levels);
    assert (boards + [next])[|levels|] == boards[|levels|];
  }

  /** Every puyo a run counts as eliminated left the board, and no other did. */
  lemma {:induction false} CascadeConserves(boards: seq<Grid>, levels: seq<seq<ChainResult>>)
    requires Cascade(boards, levels)
    ensures CascadeEliminated(boards, levels) == StoneCount(boards[0]) - StoneCount(boards[|levels|])
    decreases |levels|
  {
    if |levels| > 0 {
      var n := |levels|;
      var bs, ls := boards[..n], levels[..n - 1];
      CascadePrefix(boards, levels);
      CascadeConserves(bs, ls);
      CascadeEliminatedOfPrefix(bs, boards[n..], ls);
      assert bs + boards[n..] == boards;
      assert bs[0] == boards[0] && bs[n - 1] == boards[n - 1];
      var last := LevelAsWritten(boards[n - 1], levels[n - 1]);
      LevelAsWrittenConserves(boards[n - 1], levels[n - 1]);
      assert boards[n] == last.board;
      assert CascadeEliminated(boards, levels) == CascadeEliminated(boards, ls) + last.eliminated;
    }
  }

  /** Each level removes at least MIN_CHAIN_LENGTH puyos, so a run is no longer than the puyos allow. */
  lemma {:induction false} CascadeBounded(boards: seq<Grid>, levels: seq<seq<ChainResult>>)
    requires Cascade(boards, levels) && Found(boards, levels)
    ensures MinChainLength * |levels| <= StoneCount(boards[0]) - StoneCount(boards[|levels|])
    decreases |levels|
  {
    if |levels| > 0 {
      var n := |levels|;
      CascadePrefix(boards, levels);
      FoundPrefix(boards, levels);
      CascadeBounded(boards[..n], levels[..n - 1]);
      assert StoneCount(boards[n]) <= StoneCount(boards[n - 1]) - MinChainLength by {
        FoundAt(boards, levels, n - 1);
        LevelAsWrittenProgress(boards[n - 1], levels[n - 1]);
      }
    }
  }

  /** Every level is worth at least 40 points, whatever its multiplier. */
  lemma {:induction false} CascadeScoreAtLeast(boards: seq<Grid>, levels: seq<seq<ChainResult>>)
    requires Cascade(boards, levels) && Found(boards, levels)
    ensures CascadeScore(levels) >= 40 * |levels|
    decreases |levels|
  {
    if |levels| > 0 {
      var n := |levels|;
      var chains := levels[n - 1];
      CascadePrefix(boards, levels);
      FoundPrefix(boards, levels);
      CascadeScoreAtLeast(boards[..n], levels[..n - 1]);
      assert SumScores(chains) >= 40 by {
        FoundAt(boards, levels, n - 1);
        RecordScoresAtLeast40(boards[n - 1], chains);
        SumScoresAtLeast(chains);
      }
      LevelBonusAtLeastBase(SumScores(chains), n);
    }
  }

  /** A run that stops on a stable board has no level exactly when its first board is stable. */
  lemma CascadeEmptyIff(boards: seq<Grid>, levels: seq<seq<ChainResult>>)
    requires Cascade(boards, levels) && Found(boards, levels)
    requires Poppable(boards[|levels|]) == {}
    ensures levels == [] <==> Poppable(boards[0]) == {}
  {
    if levels != [] {
      assert StepAt(boards, levels, 0);
      FoundAt(boards, levels, 0);
      NoChainsIffStable(boards[0], levels[0]);
    }
  }

  /** A run that starts on a settled board ends on one. */
  lemma CascadeSettled(boards: seq<Grid>, levels: seq<seq<ChainResult>>)
    requires Cascade(boards, levels)
    requires forall x :: 0 <= x < |boards[0]| ==> NoGap(boards[0][x])
    ensures |boards[|levels|]| == |boards[0]|
    ensures forall x :: 0 <= x < |boards[0]| ==> NoGap(boards[|levels|][x])
  {
    CascadeWidth(boards, levels);
    if |levels| > 0 {
      var n := |levels|;
      assert StepAt(boards, levels, n - 1);
      LevelAsWrittenConserves(boards[n - 1], levels[n - 1]);
    }
  }

  lemma {:induction false} CascadeWidth(boards: seq<Grid>, levels: seq<seq<ChainResult>>)
    requires Cascade(boards, levels)
    ensures |boards[|levels|]| == |boards[0]|
    decreases |levels|
  {
    if |levels| > 0 {
      var n := |levels|;
      CascadePrefix(boards, levels);
      CascadeWidth(boards[..n], levels[..n - 1]);
      LevelAsWrittenConserves(boards[n - 1], levels[n - 1]);
    }
  }

  // ---------------------------------------------------------------------
  // A board on which the two readings differ
  // ---------------------------------------------------------------------

  /** A vertical run of one kind is connected from its top cell to its bottom cell. */
  lemma ColumnRunLinked(g: Grid, t: PuyoType, x: int, a: int, b: int)
    requires 0 <= x < |g| && 0 <= a <= b < |g[x]|
    requires forall y :: a <= y <= b ==> g[x][y] == t
    ensures Linked(g, t, PuyoPosition(x, a), PuyoPosition(x, b))
  {
    var path := seq(b - a + 1, i requires 0 <= i <= b - a => PuyoPosition(x, a + i));
    assert forall i :: 0 <= i < |path| ==> path[i] == PuyoPosition(x, a + i);
    assert IsPath(g, t, path);
    assert path[|path| - 1] == PuyoPosition(x, b);
  }

  /**
   * Two columns, top row first: a red column on the right, and on the left
   * four blues resting on a red that touches the red column.
   */
  const StaleBoard: Grid := [[Empty, Blue, Blue, Blue, Blue, Red], [Red, Red, Red, Red, Red, Red]]

  const StaleRed: set<PuyoPosition> := {PuyoPosition(1, 0), PuyoPosition(1, 1), PuyoPosition(1, 2), PuyoPosition(1, 3),
                                        PuyoPosition(1, 4), PuyoPosition(1, 5), PuyoPosition(0, 5)}

  const StaleBlue: set<PuyoPosition> := {PuyoPosition(0, 1), PuyoPosition(0, 2), PuyoPosition(0, 3), PuyoPosition(0, 4)}

  lemma StaleCells(p: PuyoPosition)
    requires InBounds(StaleBoard, p)
    ensures StaleBoard[p.x][p.y] == Red <==> p in StaleRed
    ensures StaleBoard[p.x][p.y] == Blue <==> p in StaleBlue
    ensures StaleBoard[p.x][p.y] == Empty <==> p == PuyoPosition(0, 0)
  {
    assert p.x == 0 || p.x == 1;
    assert p.y == 0 || p.y == 1 || p.y == 2 || p.y == 3 || p.y == 4 || p.y == 5;
  }

  lemma StaleRedGroup()
    ensures Group(StaleBoard, PuyoPosition(1, 0)) == StaleRed
  {
    var g := StaleBoard;
    var p := PuyoPosition(1, 0);
    forall q, n | q in StaleRed && Adjacent(q, n) && Same(g, Red, n)
      ensures n in StaleRed
    {
      StaleCells(n);
    }
    forall q | q in StaleRed
      ensures Linked(g, Red, p, q)
    {
      if q.x == 1 {
        ColumnRunLinked(g, Red, 1, 0, q.y);
      } else {
        ColumnRunLinked(g, Red, 1, 0, 5);
        LinkedSelf(g, Red, q);
        LinkedPrepend(g, Red, PuyoPosition(1, 5), q, q);
        LinkedTransitive(g, Red, p, PuyoPosition(1, 5), q);
      }
    }
    ClosedLinkedIsComponent(g, Red, StaleRed, p);
  }

  lemma StaleBlueGroup()
    ensures Group(StaleBoard, PuyoPosition(0, 1)) == StaleBlue
  {
    var g := StaleBoard;
    var p := PuyoPosition(0, 1);
    forall q, n | q in StaleBlue && Adjacent(q, n) && Same(g, Blue, n)
      ensures n in StaleBlue
    {
      StaleCells(n);
    }
    forall q | q in StaleBlue
      ensures Linked(g, Blue, p, q)
    {
      ColumnRunLinked(g, Blue, 0, 1, q.y);
    }
    ClosedLinkedIsComponent(g, Blue, StaleBlue, p);
  }

  /** The group of every cell of the board. */
  lemma StaleGroupOf(q: PuyoPosition)
    ensures q in StaleRed ==> Group(StaleBoard, q) == StaleRed
    ensures q in StaleBlue ==> Group(StaleBoard, q) == StaleBlue
    ensures q !in StaleRed && q !in StaleBlue ==> Group(StaleBoard, q) == {}
  {
    StaleRedGroup();
    StaleBlueGroup();
    if q in StaleRed {
      GroupOfMember(StaleBoard, PuyoPosition(1, 0), q);
    } else if q in StaleBlue {
      GroupOfMember(StaleBoard, PuyoPosition(0, 1), q);
    } else if InBounds(StaleBoard, q) {
      StaleCells(q);
    }
  }

  lemma StaleSizes()
    ensures |StaleRed| == 7 && |StaleBlue| == 4 && StaleRed !! StaleBlue
  {
  }

  lemma StalePoppable()
    ensures Poppable(StaleBoard) == StaleRed + StaleBlue
    ensures |Poppable(StaleBoard)| == 11
  {
    StalePoppableBelow();
    StalePoppableAbove();
    assert Poppable(StaleBoard) == StaleRed + StaleBlue;
    StaleSizes();
    DisjointUnionSize(StaleRed, StaleBlue);
  }

  lemma DisjointUnionSize<T>(a: set<T>, b: set<T>)
    requires a !! b
    ensures |a + b| == |a| + |b|
  {
  }

  lemma StalePoppableBelow()
    ensures Poppable(StaleBoard) <= StaleRed + StaleBlue
  {
    forall q | q in Poppable(StaleBoard)
      ensures q in StaleRed + StaleBlue
    {
      StaleGroupOf(q);
    }
  }

  lemma StalePoppableAbove()
    ensures StaleRed + StaleBlue <= Poppable(StaleBoard)
  {
    forall q | q in StaleRed + StaleBlue
      ensures q in Poppable(StaleBoard)
    {
      StaleSizes();
      StaleGroupOf(q);
      InPoppable(StaleBoard, q);
    }
  }

  lemma InPoppable(g: Grid, q: PuyoPosition)
    requires q in Group(g, q) && |Group(g, q)| >= MinChainLength
    ensures q in Poppable(g)
  {
    assert q == PuyoPosition(q.x, q.y);
  }

  /** The records for the two groups; 112 and 40 are the authentic scores of seven red and four blue puyos. */
  const StaleRedRecord: ChainResult := ChainResult(StaleRed, 1, 7, 112, Red)
  const StaleBlueRecord: ChainResult := ChainResult(StaleBlue, 1, 4, 40, Blue)

  lemma StaleScores()
    ensures AuthenticChainScore(7, Red) == 112 && AuthenticChainScore(4, Blue) == 40
  {
    AuthenticScoreClosedForm(7, Red);
    AuthenticScoreClosedForm(4, Blue);
  }

  /** The only records find_all_chains can build on this board. */
  lemma StaleRecord(c: ChainResult)
    requires IsChain(StaleBoard, c)
    ensures c == StaleRedRecord || c == StaleBlueRecord
  {
    var p :| IsChainAt(StaleBoard, c, p);
    StaleGroupOf(p);
    StaleSizes();
    StaleScores();
    if p in StaleRed {
      StaleCells(p);
    } else {
      StaleCells(p);
    }
  }

  lemma BlueNotEarlier()
    ensures !ScanEarlier(StaleBlue, StaleRed)
  {
    forall p | p in StaleBlue
      ensures !Before(p, PuyoPosition(1, 0))
    {
    }
  }

  /** Two different values that both occur in a repetition-free sequence of just those values. */
  lemma TwoOf<T>(s: seq<T>, r: T, b: T)
    requires r != b && r in s && b in s
    requires forall i :: 0 <= i < |s| ==> s[i] == r || s[i] == b
    requires forall i, j :: 0 <= i < j < |s| ==> s[i] != s[j]
    ensures s == [r, b] || s == [b, r]
  {
    assert |s| >= 3 ==> At(s, 0, r) != At(s, 1, r) && At(s, 0, r) != At(s, 2, r) && At(s, 1, r) != At(s, 2, r);
    assert |s| >= 3 ==> (At(s, 0, r) == r || At(s, 0, r) == b) && (At(s, 1, r) == r || At(s, 1, r) == b) && (At(s, 2, r) == r || At(s, 2, r) == b);
    assert |s| == 2;
  }

  /** Element k of s, or d past its end. */
  function At<T>(s: seq<T>, k: int, d: T): T {
    if 0 <= k < |s| then s[k] else d
  }

  lemma StaleMembers(chains: seq<ChainResult>)
    requires forall i :: 0 <= i < |chains| ==> IsChain(StaleBoard, chains[i])
    ensures forall i :: 0 <= i < |chains| ==> chains[i] == StaleRedRecord || chains[i] == StaleBlueRecord
  {
    forall i | 0 <= i < |chains|
      ensures chains[i] == StaleRedRecord || chains[i] == StaleBlueRecord
    {
      StaleRecord(chains[i]);
    }
  }

  lemma StaleDistinct(chains: seq<ChainResult>)
    requires forall i :: 0 <= i < |chains| ==> chains[i] == StaleRedRecord || chains[i] == StaleBlueRecord
    requires forall i, j :: 0 <= i < j < |chains| ==> chains[i].eliminatedPuyos !! chains[j].eliminatedPuyos
    ensures forall i, j :: 0 <= i < j < |chains| ==> chains[i] != chains[j]
  {
    assert PuyoPosition(1, 0) in StaleRed && PuyoPosition(0, 1) in StaleBlue;
  }

  lemma StalePresent(chains: seq<ChainResult>)
    requires forall i :: 0 <= i < |chains| ==> chains[i] == StaleRedRecord || chains[i] == StaleBlueRecord
    requires PuyoPosition(1, 0) in Covered(chains) && PuyoPosition(0, 1) in Covered(chains)
    ensures StaleRedRecord in chains && StaleBlueRecord in chains
  {
    StaleSizes();
    CoveredHasRecord(chains, PuyoPosition(1, 0));
    CoveredHasRecord(chains, PuyoPosition(0, 1));
    assert PuyoPosition(1, 0) !in StaleBlue && PuyoPosition(0, 1) !in StaleRed;
  }

  /** find_all_chains on this board returns the red record, then the blue one, and nothing else. */
  lemma StaleChains(g: Grid, chains: seq<ChainResult>)
    requires g == StaleBoard && ChainsOf(g, chains)
    ensures chains == [StaleRedRecord, StaleBlueRecord]
  {
    StaleMembers(chains);
    StaleDistinct(chains);
    ChainsCoverPoppable(g, chains);
    StaleCorners(g, chains);
    StaleOrder(chains);
  }

  lemma StaleCorners(g: Grid, chains: seq<ChainResult>)
    requires g == StaleBoard && Covered(chains) == Poppable(g)
    ensures PuyoPosition(1, 0) in Covered(chains) && PuyoPosition(0, 1) in Covered(chains)
  {
    StalePoppable();
  }

  lemma StaleOrder(chains: seq<ChainResult>)
    requires forall i :: 0 <= i < |chains| ==> chains[i] == StaleRedRecord || chains[i] == StaleBlueRecord
    requires forall i, j :: 0 <= i < j < |chains| ==> chains[i] != chains[j]
    requires PuyoPosition(1, 0) in Covered(chains) && PuyoPosition(0, 1) in Covered(chains)
    requires forall i, j :: 0 <= i < j < |chains| ==> ScanEarlier(chains[i].eliminatedPuyos, chains[j].eliminatedPuyos)
    ensures chains == [StaleRedRecord, StaleBlueRecord]
  {
    StalePresent(chains);
    assert StaleRedRecord != StaleBlueRecord;
    TwoOf(chains, StaleRedRecord, StaleBlueRecord);
    BlueNotEarlier();
    assert chains != [StaleBlueRecord, StaleRedRecord];
  }

  lemma StaleRedIsChain()
    ensures IsChainAt(StaleBoard, StaleRedRecord, PuyoPosition(1, 0))
  {
    StaleRedGroup();
    StaleSizes();
    StaleScores();
    StaleCells(PuyoPosition(1, 0));
  }

  lemma StaleBlueIsChain()
    ensures IsChainAt(StaleBoard, StaleBlueRecord, PuyoPosition(0, 1))
  {
    StaleBlueGroup();
    StaleSizes();
    StaleScores();
    StaleCells(PuyoPosition(0, 1));
  }

  lemma RedEarlier()
    ensures ScanEarlier(StaleRed, StaleBlue)
  {
    forall q | q in StaleBlue
      ensures Before(PuyoPosition(1, 0), q)
    {
    }
    assert PuyoPosition(1, 0) in StaleRed;
  }

  /** Two disjoint records, the first earlier in scan order, that cover every poppable cell. */
  lemma ChainsOfPair(g: Grid, a: ChainResult, b: ChainResult)
    requires IsChain(g, a) && IsChain(g, b)
    requires a.eliminatedPuyos !! b.eliminatedPuyos
    requires Poppable(g) <= a.eliminatedPuyos + b.eliminatedPuyos
    requires ScanEarlier(a.eliminatedPuyos, b.eliminatedPuyos)
    ensures ChainsOf(g, [a, b])
  {
    PairChains(g, a, b);
    PairCovers(g, a, b);
    PairOrdered(a, b);
  }

  lemma PairChains(g: Grid, a: ChainResult, b: ChainResult)
    requires IsChain(g, a) && IsChain(g, b)
    ensures forall i :: 0 <= i < |[a, b]| ==> IsChain(g, [a, b][i])
  {
    var cs := [a, b];
    forall i | 0 <= i < |cs|
      ensures IsChain(g, cs[i])
    {
      assert i == 0 || i == 1;
    }
  }

  lemma PairOrdered(a: ChainResult, b: ChainResult)
    requires a.eliminatedPuyos !! b.eliminatedPuyos
    requires ScanEarlier(a.eliminatedPuyos, b.eliminatedPuyos)
    ensures forall i, j :: 0 <= i < j < |[a, b]| ==> [a, b][i].eliminatedPuyos !! [a, b][j].eliminatedPuyos
    ensures forall i, j :: 0 <= i < j < |[a, b]| ==> ScanEarlier([a, b][i].eliminatedPuyos, [a, b][j].eliminatedPuyos)
  {
    var cs := [a, b];
    forall i, j | 0 <= i < j < |cs|
      ensures cs[i].eliminatedPuyos !! cs[j].eliminatedPuyos && ScanEarlier(cs[i].eliminatedPuyos, cs[j].eliminatedPuyos)
    {
      assert i == 0 && j == 1;
    }
  }

  lemma PairCovers(g: Grid, a: ChainResult, b: ChainResult)
    requires Poppable(g) <= a.eliminatedPuyos + b.eliminatedPuyos
    ensures forall p :: p in Poppable(g) ==> exists i :: 0 <= i < |[a, b]| && p in [a, b][i].eliminatedPuyos
  {
    var cs := [a, b];
    forall p | p in Poppable(g)
      ensures exists i :: 0 <= i < |cs| && p in cs[i].eliminatedPuyos
    {
      if p in a.eliminatedPuyos {
        assert p in cs[0].eliminatedPuyos;
      } else {
        assert p in cs[1].eliminatedPuyos;
      }
    }
  }

  lemma StalePairFacts()
    ensures IsChain(StaleBoard, StaleRedRecord) && IsChain(StaleBoard, StaleBlueRecord)
    ensures StaleRed !! StaleBlue
    ensures Poppable(StaleBoard) <= StaleRed + StaleBlue
    ensures ScanEarlier(StaleRed, StaleBlue)
  {
    StaleRedIsChain();
    StaleBlueIsChain();
    StaleSizes();
    StalePoppableBelow();
    RedEarlier();
  }

  /** The two records satisfy find_all_chains' contract on this board. */
  lemma StaleChainsFound()
    ensures ChainsOf(StaleBoard, [StaleRedRecord, StaleBlueRecord])
  {
    StalePairFacts();
    ChainsOfPair(StaleBoard, StaleRedRecord, StaleBlueRecord);
  }

  /** The board after the red record: its cells emptied, then gravity. */
  const StaleAfterRed: Grid := [[Empty, Empty, Blue, Blue, Blue, Blue], [Empty, Empty, Empty, Empty, Empty, Empty]]
  /** The board after the blue record, emptied at its stale positions. */
  const StaleAfterBlue: Grid := [[Empty, Empty, Empty, Empty, Empty, Blue], [Empty, Empty, Empty, Empty, Empty, Empty]]

  lemma StaleClearRed()
    ensures ClearCells(StaleBoard, StaleRed) == [[Empty, Blue, Blue, Blue, Blue, Empty], [Empty, Empty, Empty, Empty, Empty, Empty]]
  {
    var r := ClearCells(StaleBoard, StaleRed);
    var e := [[Empty, Blue, Blue, Blue, Blue, Empty], [Empty, Empty, Empty, Empty, Empty, Empty]];
    forall x, y | 0 <= x < 2 && 0 <= y < 6
      ensures r[x][y] == e[x][y]
    {
      StaleCells(PuyoPosition(x, y));
    }
    assert r[0] == e[0] && r[1] == e[1];
  }

  lemma StaleGravityRed()
    ensures Gravity([[Empty, Blue, Blue, Blue, Blue, Empty], [Empty, Empty, Empty, Empty, Empty, Empty]]) == StaleAfterRed
  {
    var c0 := [Empty, Blue, Blue, Blue, Blue, Empty];
    var c1 := [Empty, Empty, Empty, Empty, Empty, Empty];
    assert Filled(c0) == [Blue, Blue, Blue, Blue] by {
      assert c0[1..] == [Blue, Blue, Blue, Blue, Empty];
      assert c0[1..][1..] == [Blue, Blue, Blue, Empty];
      assert c0[1..][1..][1..] == [Blue, Blue, Empty];
      assert c0[1..][1..][1..][1..] == [Blue, Empty];
      assert c0[1..][1..][1..][1..][1..] == [Empty];
    }
    assert Filled(c1) == [] by {
      FilledOfBlank(6);
      assert Blank(6) == c1;
    }
    assert Compacted(c0) == StaleAfterRed[0];
    assert Compacted(c1) == StaleAfterRed[1];
  }

  lemma StaleClearBlue()
    ensures ClearCells(StaleAfterRed, StaleBlue) == StaleAfterBlue
    ensures Occupied(StaleAfterRed, StaleBlue) == {PuyoPosition(0, 2), PuyoPosition(0, 3), PuyoPosition(0, 4)}
  {
    var r := ClearCells(StaleAfterRed, StaleBlue);
    assert r[0] == StaleAfterBlue[0] && r[1] == StaleAfterBlue[1];
    var o := Occupied(StaleAfterRed, StaleBlue);
    forall p | p in o
      ensures p in {PuyoPosition(0, 2), PuyoPosition(0, 3), PuyoPosition(0, 4)}
    {
    }
    assert PuyoPosition(0, 2) in o && PuyoPosition(0, 3) in o && PuyoPosition(0, 4) in o;
  }

  lemma StaleAfterBlueSettled()
    ensures Gravity(StaleAfterBlue) == StaleAfterBlue
  {
    var g := StaleAfterBlue;
    assert NoGap(g[0]) && NoGap(g[1]);
    NoGapIffCompacted(g[0]);
    NoGapIffCompacted(g[1]);
    assert Gravity(g)[0] == g[0] && Gravity(g)[1] == g[1];
  }

  lemma StaleOccupiedRed()
    ensures Occupied(StaleBoard, StaleRed) == StaleRed
  {
    forall p | p in StaleRed
      ensures p in Occupied(StaleBoard, StaleRed)
    {
      StaleCells(p);
    }
  }

  /** The level as written, record by record, on the four-over-seven board. */
  lemma StaleLevelTrace(g: Grid, cs: seq<ChainResult>)
    requires g == StaleBoard && cs == [StaleRedRecord, StaleBlueRecord]
    ensures LevelAsWritten(g, cs[..1]) == LevelOutcome(StaleAfterRed, 7, 112)
    ensures LevelAsWritten(g, cs) == LevelOutcome(StaleAfterBlue, 10, 152)
  {
    assert cs[..1][..0] == [];
    assert cs[..1] == [StaleRedRecord];
    assert LevelAsWritten(g, cs[..1]) == LevelOutcome(StaleAfterRed, 7, 112) by {
      StaleClearRed();
      StaleGravityRed();
      StaleOccupiedRed();
      StaleSizes();
    }
    var before := LevelAsWritten(g, cs[..1]);
    var c := cs[1];
    assert LevelAsWritten(g, cs) == LevelOutcome(Gravity(ClearCells(before.board, c.eliminatedPuyos)),
      before.eliminated + |Occupied(before.board, c.eliminatedPuyos)|, before.score + c.score);
    assert before.board == StaleAfterRed && c.eliminatedPuyos == StaleBlue;
    assert Gravity(ClearCells(StaleAfterRed, StaleBlue)) == StaleAfterBlue by {
      StaleClearBlue();
      StaleAfterBlueSettled();
    }
    assert |Occupied(StaleAfterRed, StaleBlue)| == 3 by {
      StaleClearBlue();
      StaleThree();
    }
  }

  lemma StaleThree()
    ensures |{PuyoPosition(0, 2), PuyoPosition(0, 3), PuyoPosition(0, 4)}| == 3
  {
    var s := {PuyoPosition(0, 2)};
    assert |s + {PuyoPosition(0, 3)}| == 2;
    assert s + {PuyoPosition(0, 3)} + {PuyoPosition(0, 4)} == {PuyoPosition(0, 2), PuyoPosition(0, 3), PuyoPosition(0, 4)};
  }

  /**
   * The stale-position discrepancy: on this board find_all_chains can only
   * return the red group and then the blue group, eleven puyos in all. The
   * level as written counts ten and leaves a blue puyo on the board, because
   * the blue positions were recorded before gravity moved the blue column
   * down. Emptying every recorded cell before gravity, as
   * execute_chain_elimination does, removes all eleven.
   */
  lemma StaleLevelLosesPuyos(g: Grid, cs: seq<ChainResult>)
    requires g == StaleBoard && cs == [StaleRedRecord, StaleBlueRecord]
    ensures ChainsOf(g, cs)
    ensures |Poppable(g)| == 11 && StoneCount(g) == 11
    ensures LevelAsWritten(g, cs).eliminated == 10 && LevelAsWritten(g, cs).board == StaleAfterBlue
    ensures LevelCorrected(g, cs).eliminated == 11 && StoneCount(LevelCorrected(g, cs).board) == 0
  {
    assert ChainsOf(g, cs) by { StaleChainsFound(); }
    assert |Poppable(g)| == 11 by { StalePoppable(); }
    assert StoneCount(g) == 11 by { StaleStoneCount(g); }
    assert LevelAsWritten(g, cs) == LevelOutcome(StaleAfterBlue, 10, 152) by { StaleLevelTrace(g, cs); }
    LevelCorrectedRemovesPoppable(g, cs);
  }

  lemma StaleStoneCount(g: Grid)
    requires g == StaleBoard
    ensures StoneCount(g) == 11
  {
    assert g[..1][..0] == [] && g[..2] == g && g[..2][..1] == [g[0]];
    assert Filled(g[0]) == [Blue, Blue, Blue, Blue, Red] by {
      assert g[0][1..] == [Blue, Blue, Blue, Blue, Red];
      FilledOfNoEmpty(g[0][1..]);
    }
    FilledOfNoEmpty(g[1]);
  }
}
