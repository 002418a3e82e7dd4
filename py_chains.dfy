/**
 * Chain detection and scoring of the Python puzzle grid
 * (src/puzzle/puyo_grid.py): the ChainResult record, the two group score
 * formulas, the chain-level multiplier table, and what find_all_chains must
 * return, with the lemmas that carry its row-by-row scan.
 */
module PyChains {
  import opened PyBoard

  /** ChainResult: one group found by find_all_chains. */
  datatype ChainResult = ChainResult(
    eliminatedPuyos: set<PuyoPosition>,
    chainLength: int,
    puyoCount: int,
    score: int,
    chainType: PuyoType)

  /** Python's int() applied to a float: truncation toward zero. */
  function Trunc(v: real): int {
    if v >= 0.0 then v.Floor else -((-v).Floor)
  }

  /** The two kinds that earn a colour bonus. */
  predicate RareColor(t: PuyoType) {
    t == Purple || t == Orange
  }

  // ---------------------------------------------------------------------
  // Scores
  // ---------------------------------------------------------------------

  /** _calculate_chain_score: the older formula, 10 plus 10 per puyo, 20% more for rare colours. */
  function ChainScore(puyoCount: int, puyoType: PuyoType): int {
    Trunc(((ChainScoreBase + puyoCount * 10) as real) * (if RareColor(puyoType) then 1.2 else 1.0))
  }

  /** The older formula in closed form: 10 or 12 points per puyo plus the base. */
  lemma ChainScoreClosedForm(puyoCount: nat, puyoType: PuyoType)
    ensures ChainScore(puyoCount, puyoType) == if RareColor(puyoType) then 12 * (1 + puyoCount) else 10 * (1 + puyoCount)
  {
    if RareColor(puyoType) {
      assert ((ChainScoreBase + puyoCount * 10) as real) * 1.2 == (12 * (1 + puyoCount)) as real;
    }
  }

  /**
   * _calculate_authentic_chain_score: 10 points per puyo, times a size bonus
   * of 1.0 for four puyos and 0.2 more per extra puyo, times 1.1 for rare
   * colours, truncated, and never below 40.
   */
  function AuthenticChainScore(puyoCount: int, puyoType: PuyoType): int {
    var basePoints := puyoCount * 10;
    var connectionBonus := 1.0 + ((puyoCount - 4) as real) * 0.2;
    var colorBonus := ColorBonus(puyoType);
    var finalScore := Trunc((basePoints as real) * connectionBonus * colorBonus);
    if finalScore > 40 then finalScore else 40
  }

  /** The product inside the authentic formula is 2 n (n + 1) times the colour bonus. */
  lemma AuthenticProduct(n: int)
    ensures ((n * 10) as real) * (1.0 + ((n - 4) as real) * 0.2) == (2 * n * (n + 1)) as real
  {
    var a := n as real;
    calc {
      ((n * 10) as real) * (1.0 + ((n - 4) as real) * 0.2);
      (10.0 * a) * (1.0 + (a - 4.0) * 0.2);
      10.0 * a + 2.0 * a * (a - 4.0);
      2.0 * a * a + 2.0 * a;
      (2 * n * (n + 1)) as real;
    }
  }

  /** For ordinary colours the authentic score is max(2 n (n + 1), 40). */
  lemma AuthenticScoreClosedForm(puyoCount: nat, puyoType: PuyoType)
    requires !RareColor(puyoType)
    ensures AuthenticChainScore(puyoCount, puyoType) == if 2 * puyoCount * (puyoCount + 1) > 40 then 2 * puyoCount * (puyoCount + 1) else 40
  {
    AuthenticProduct(puyoCount);
    var v := ((puyoCount * 10) as real) * (1.0 + ((puyoCount - 4) as real) * 0.2);
    assert v * 1.0 == v;
  }

  /** Four, five and six puyos of an ordinary colour score 40, 60 and 84; rare colours 44, 66 and 92. */
  lemma AuthenticScoreExamples()
    ensures AuthenticChainScore(4, Red) == 40 && AuthenticChainScore(5, Red) == 60
    ensures AuthenticChainScore(6, Blue) == 84
    ensures AuthenticChainScore(4, Purple) == 44 && AuthenticChainScore(5, Orange) == 66
    ensures AuthenticChainScore(6, Purple) == 92
  {
    AuthenticScoreClosedForm(4, Red);
    AuthenticScoreClosedForm(5, Red);
    AuthenticScoreClosedForm(6, Blue);
    AuthenticProduct(4);
    AuthenticProduct(5);
    AuthenticProduct(6);
    assert (40 as real) * 1.1 == 44.0;
    assert (60 as real) * 1.1 == 66.0;
    assert (84 as real) * 1.1 == 92.4;
  }

  /** The colour bonus of the authentic formula. */
  function ColorBonus(puyoType: PuyoType): real {
    if RareColor(puyoType) then 1.1 else 1.0
  }

  /** The authentic score as the truncated product 2 n (n + 1) times the colour bonus. */
  lemma AuthenticScoreByProduct(n: int, puyoType: PuyoType)
    ensures var v := Trunc(((2 * n * (n + 1)) as real) * ColorBonus(puyoType));
      AuthenticChainScore(n, puyoType) == if v > 40 then v else 40
  {
    AuthenticProduct(n);
  }

  lemma TruncMonotone(a: real, b: real)
    requires 0.0 <= a <= b
    ensures Trunc(a) <= Trunc(b)
  {
  }

  lemma SquareStepMonotone(m: nat, n: nat)
    requires m <= n
    ensures 2 * m * (m + 1) <= 2 * n * (n + 1)
  {
    assert m * (m + 1) <= n * (m + 1);
    assert n * (m + 1) <= n * (n + 1);
  }

  /** A bigger group never scores less. */
  lemma AuthenticScoreMonotone(m: nat, n: nat, puyoType: PuyoType)
    requires m <= n
    ensures AuthenticChainScore(m, puyoType) <= AuthenticChainScore(n, puyoType)
  {
    AuthenticScoreByProduct(m, puyoType);
    AuthenticScoreByProduct(n, puyoType);
    SquareStepMonotone(m, n);
    var vm := (2 * m * (m + 1)) as real;
    var vn := (2 * n * (n + 1)) as real;
    if RareColor(puyoType) {
      assert vm * 1.1 <= vn * 1.1;
      TruncMonotone(vm * 1.1, vn * 1.1);
    } else {
      assert vm * 1.0 == vm && vn * 1.0 == vn;
      TruncMonotone(vm, vn);
    }
  }

  /** A score times a multiplier, truncated toward zero as Python's int() does. */
  function Scaled(score: int, multiplier: real): int {
    Trunc((score as real) * multiplier)
  }

  /** _calculate_authentic_chain_multiplier: the table for levels 1 to 10, then 4 more per level. */
  function ChainMultiplier(chainLevel: int): real {
    if 1 <= chainLevel <= |MultiplierTable| then MultiplierTable[chainLevel - 1]
    else if chainLevel > |MultiplierTable| then 28.0 + ((chainLevel - 10) as real) * 4.0
    else 1.0
  }

  /** The multipliers of levels 1 to 10. */
  const MultiplierTable: seq<real> := [1.0, 1.8, 2.9, 4.6, 7.7, 12.0, 16.0, 20.0, 24.0, 28.0]

  /** The authentic score is never below the floor of 40. */
  lemma AuthenticScoreAtLeast40(puyoCount: int, puyoType: PuyoType)
    ensures AuthenticChainScore(puyoCount, puyoType) >= 40
  {
  }

  /** No level multiplies by less than one. */
  lemma ChainMultiplierAtLeastOne(chainLevel: int)
    ensures ChainMultiplier(chainLevel) >= 1.0
  {
    MultiplierTableSorted();
  }

  /** A deeper chain level never has a smaller multiplier. */
  lemma ChainMultiplierMonotone(a: int, b: int)
    requires a <= b
    ensures ChainMultiplier(a) <= ChainMultiplier(b)
  {
    MultiplierTableSorted();
  }

  /** The table starts at 1.0, never decreases, and ends at 28.0, where the linear part takes over. */
  lemma MultiplierTableSorted()
    ensures MultiplierTable[0] == 1.0 && MultiplierTable[|MultiplierTable| - 1] == 28.0
    ensures forall i, j :: 0 <= i <= j < |MultiplierTable| ==> MultiplierTable[i] <= MultiplierTable[j]
  {
    var s := MultiplierTable;
    assert forall i :: 0 <= i < |s| - 1 ==> s[i] <= s[i + 1];
    forall i, j | 0 <= i <= j < |s|
      ensures s[i] <= s[j]
    {
      var k := i;
      while k < j
        invariant i <= k <= j && s[i] <= s[k]
      {
        k := k + 1;
      }
    }
  }

  /** The score of one group at a chain level. */
  function GroupLevelScore(c: ChainResult, chainLevel: int): int {
    Scaled(AuthenticChainScore(|c.eliminatedPuyos|, c.chainType), ChainMultiplier(chainLevel))
  }

  /** _calculate_chain_level_score as a sum over the groups, last group last. */
  function LevelScore(chains: seq<ChainResult>, chainLevel: int): int {
    if |chains| == 0 then 0 else LevelScore(chains[..|chains| - 1], chainLevel) + GroupLevelScore(chains[|chains| - 1], chainLevel)
  }

  lemma LevelScoreStep(chains: seq<ChainResult>, i: int, chainLevel: int)
    requires 0 <= i < |chains|
    ensures LevelScore(chains[..i + 1], chainLevel) == LevelScore(chains[..i], chainLevel) + GroupLevelScore(chains[i], chainLevel)
  {
    assert chains[..i + 1][..i] == chains[..i];
  }

  /** Every group scores at least 40 at any level, so a level's score is at least 40 per group. */
  lemma {:induction false} LevelScoreLowerBound(chains: seq<ChainResult>, chainLevel: int)
    ensures LevelScore(chains, chainLevel) >= 40 * |chains|
    decreases |chains|
  {
    if |chains| > 0 {
      LevelScoreLowerBound(chains[..|chains| - 1], chainLevel);
      var c := chains[|chains| - 1];
      var s := AuthenticChainScore(|c.eliminatedPuyos|, c.chainType);
      var m := ChainMultiplier(chainLevel);
      AuthenticScoreAtLeast40(|c.eliminatedPuyos|, c.chainType);
      ChainMultiplierAtLeastOne(chainLevel);
      assert (s as real) * m >= (s as real) * 1.0 >= 40.0;
    }
  }

  // ---------------------------------------------------------------------
  // What find_all_chains returns
  // ---------------------------------------------------------------------

  /** Row-major scan order of find_all_chains: row by row from y = 0, left to right. */
  predicate Before(p: PuyoPosition, q: PuyoPosition) {
    p.y < q.y || (p.y == q.y && p.x < q.x)
  }

  /** A chain record as find_all_chains builds it for the group of cell p. */
  ghost predicate IsChainAt(g: Grid, c: ChainResult, p: PuyoPosition) {
    p in c.eliminatedPuyos &&
    c.eliminatedPuyos == Group(g, p) &&
    |c.eliminatedPuyos| >= MinChainLength &&
    c.puyoCount == |c.eliminatedPuyos| &&
    c.chainLength == 1 &&
    c.chainType == Get(g, p) &&
    c.score == AuthenticChainScore(c.puyoCount, c.chainType)
  }

  /** A chain record of some group of the board. */
  ghost predicate IsChain(g: Grid, c: ChainResult) {
    exists p :: IsChainAt(g, c, p)
  }

  /** Every cell whose group holds at least MIN_CHAIN_LENGTH puyos. */
  ghost function Poppable(g: Grid): set<PuyoPosition> {
    set x, y | 0 <= x < |g| && 0 <= y < |g[x]| && |Group(g, PuyoPosition(x, y))| >= MinChainLength :: PuyoPosition(x, y)
  }

  /** Some cell of a lies before every cell of b in scan order. */
  ghost predicate ScanEarlier(a: set<PuyoPosition>, b: set<PuyoPosition>) {
    exists p :: p in a && forall q :: q in b ==> Before(p, q)
  }

  /**
   * The result of find_all_chains on board g: one record per group of at
   * least MIN_CHAIN_LENGTH puyos, no group twice, none missing, in the scan
   * order of the groups' first cells.
   */
  ghost predicate ChainsOf(g: Grid, chains: seq<ChainResult>) {
    (forall i :: 0 <= i < |chains| ==> IsChain(g, chains[i])) &&
    (forall i, j :: 0 <= i < j < |chains| ==> chains[i].eliminatedPuyos !! chains[j].eliminatedPuyos) &&
    (forall p :: p in Poppable(g) ==> exists i :: 0 <= i < |chains| && p in chains[i].eliminatedPuyos) &&
    (forall i, j :: 0 <= i < j < |chains| ==> ScanEarlier(chains[i].eliminatedPuyos, chains[j].eliminatedPuyos))
  }

  /** Every cell some record eliminates. */
  function Covered(chains: seq<ChainResult>): set<PuyoPosition> {
    if |chains| == 0 then {} else Covered(chains[..|chains| - 1]) + chains[|chains| - 1].eliminatedPuyos
  }

  lemma {:induction false} CoveredHasRecord(chains: seq<ChainResult>, q: PuyoPosition)
    ensures q in Covered(chains) <==> exists i :: 0 <= i < |chains| && q in chains[i].eliminatedPuyos
    decreases |chains|
  {
    if |chains| > 0 {
      var front := chains[..|chains| - 1];
      CoveredHasRecord(front, q);
      if exists i :: 0 <= i < |chains| && q in chains[i].eliminatedPuyos {
        var i :| 0 <= i < |chains| && q in chains[i].eliminatedPuyos;
        if i < |front| {
          assert front[i] == chains[i];
        }
      }
      if exists i :: 0 <= i < |front| && q in front[i].eliminatedPuyos {
        var i :| 0 <= i < |front| && q in front[i].eliminatedPuyos;
        assert front[i] == chains[i];
      }
    }
  }

  /** visited holds only matchable cells of the board, and whole groups of them. */
  ghost predicate WholeGroups(g: Grid, visited: set<PuyoPosition>) {
    (forall q :: q in visited ==> InBounds(g, q) && Matchable(g[q.x][q.y])) &&
    (forall q, r :: q in visited && r in Group(g, q) ==> r in visited)
  }

  /** Every matchable cell before (x, y) in scan order has been visited. */
  ghost predicate ScannedUpTo(g: Grid, x: int, y: int, visited: set<PuyoPosition>) {
    forall s :: InBounds(g, s) && Before(s, PuyoPosition(x, y)) && Matchable(g[s.x][s.y]) ==> s in visited
  }

  /**
   * The records are disjoint groups of the board, each found from its start
   * cell, inside visited, and they cover every visited cell of a big group.
   */
  ghost predicate RecordsOf(g: Grid, visited: set<PuyoPosition>, chains: seq<ChainResult>, starts: seq<PuyoPosition>) {
    |starts| == |chains| &&
    (forall i :: 0 <= i < |chains| ==> IsChainAt(g, chains[i], starts[i]) && chains[i].eliminatedPuyos <= visited) &&
    (forall i, j :: 0 <= i < j < |chains| ==> chains[i].eliminatedPuyos !! chains[j].eliminatedPuyos) &&
    (forall q :: q in visited && |Group(g, q)| >= MinChainLength ==> q in Covered(chains))
  }

  /** Each start is the first cell of its record, and the starts are in scan order. */
  ghost predicate StartsFirst(chains: seq<ChainResult>, starts: seq<PuyoPosition>) {
    |starts| == |chains| &&
    (forall i :: 0 <= i < |chains| ==> forall q :: q in chains[i].eliminatedPuyos ==> !Before(q, starts[i])) &&
    (forall i, j :: 0 <= i < j < |starts| ==> Before(starts[i], starts[j]))
  }

  /** Every start lies before (x, y). */
  predicate StartsBefore(x: int, y: int, starts: seq<PuyoPosition>) {
    forall i :: 0 <= i < |starts| ==> Before(starts[i], PuyoPosition(x, y))
  }

  /**
   * The scan's state before cell (x, y): visited is a union of whole groups
   * and holds every earlier matchable cell; the records so far are disjoint
   * groups of the board, cover every visited cell of a big group, and each
   * starts at its own first cell, those starts in scan order.
   */
  ghost predicate ScanInv(g: Grid, x: int, y: int, visited: set<PuyoPosition>,
                          chains: seq<ChainResult>, starts: seq<PuyoPosition>) {
    WholeGroups(g, visited) && ScannedUpTo(g, x, y, visited) && RecordsOf(g, visited, chains, starts) &&
    StartsFirst(chains, starts) && StartsBefore(x, y, starts)
  }

  lemma ScanStart(g: Grid)
    ensures ScanInv(g, 0, 0, {}, [], [])
  {
  }

  /** A visited cell, or one that forms no group, is passed over. */
  lemma ScanSkip(g: Grid, x: int, y: int, visited: set<PuyoPosition>,
                 chains: seq<ChainResult>, starts: seq<PuyoPosition>)
    requires ScanInv(g, x, y, visited, chains, starts)
    requires InBounds(g, PuyoPosition(x, y))
    requires PuyoPosition(x, y) in visited || !Matchable(g[x][y])
    ensures ScanInv(g, x + 1, y, visited, chains, starts)
  {
    forall s | InBounds(g, s) && Before(s, PuyoPosition(x + 1, y)) && Matchable(g[s.x][s.y])
      ensures s in visited
    {
      if s != PuyoPosition(x, y) {
        assert Before(s, PuyoPosition(x, y));
      }
    }
  }

  /** The group of an unvisited start shares no cell with the visited ones, and the start is its first cell. */
  lemma FreshGroup(g: Grid, x: int, y: int, visited: set<PuyoPosition>,
                   chains: seq<ChainResult>, starts: seq<PuyoPosition>)
    requires ScanInv(g, x, y, visited, chains, starts)
    requires InBounds(g, PuyoPosition(x, y)) && PuyoPosition(x, y) !in visited && Matchable(g[x][y])
    ensures PuyoPosition(x, y) in Group(g, PuyoPosition(x, y))
    ensures Group(g, PuyoPosition(x, y)) !! visited
    ensures forall q :: q in Group(g, PuyoPosition(x, y)) ==>
      Group(g, q) == Group(g, PuyoPosition(x, y)) && InBounds(g, q) && g[q.x][q.y] == g[x][y] &&
      !Before(q, PuyoPosition(x, y))
  {
    var s := PuyoPosition(x, y);
    GroupHasStart(g, s);
    forall q | q in Group(g, s)
      ensures Group(g, q) == Group(g, s) && InBounds(g, q) && g[q.x][q.y] == g[x][y]
      ensures q !in visited && !Before(q, s)
    {
      GroupOfMember(g, s, q);
      assert s in Group(g, q);
      assert Before(q, s) ==> q in visited;
    }
  }

  /** Marking the group of an unvisited start visited keeps visited a union of groups and moves the scan on. */
  lemma VisitGroup(g: Grid, x: int, y: int, visited: set<PuyoPosition>,
                   chains: seq<ChainResult>, starts: seq<PuyoPosition>)
    requires ScanInv(g, x, y, visited, chains, starts)
    requires InBounds(g, PuyoPosition(x, y)) && PuyoPosition(x, y) !in visited && Matchable(g[x][y])
    ensures WholeGroups(g, visited + Group(g, PuyoPosition(x, y)))
    ensures ScannedUpTo(g, x + 1, y, visited + Group(g, PuyoPosition(x, y)))
  {
    var s := PuyoPosition(x, y);
    var G := Group(g, s);
    var v := visited + G;
    FreshGroup(g, x, y, visited, chains, starts);
    forall q, r | q in v && r in Group(g, q)
      ensures r in v
    {
      assert q in G ==> Group(g, q) == G;
    }
    forall t | InBounds(g, t) && Before(t, PuyoPosition(x + 1, y)) && Matchable(g[t.x][t.y])
      ensures t in v
    {
      assert t != s ==> Before(t, s);
    }
  }

  /** The scan moves past (x, y): every start is still before the next cell. */
  lemma StartsBeforeNext(x: int, y: int, starts: seq<PuyoPosition>)
    requires StartsBefore(x, y, starts)
    ensures StartsBefore(x + 1, y, starts)
  {
    forall i | 0 <= i < |starts|
      ensures Before(starts[i], PuyoPosition(x + 1, y))
    {
      assert Before(starts[i], PuyoPosition(x, y));
    }
  }

  /** An unvisited start whose group is too small only marks the group visited. */
  lemma ScanAddSmall(g: Grid, x: int, y: int, visited: set<PuyoPosition>,
                     chains: seq<ChainResult>, starts: seq<PuyoPosition>)
    requires ScanInv(g, x, y, visited, chains, starts)
    requires InBounds(g, PuyoPosition(x, y)) && PuyoPosition(x, y) !in visited && Matchable(g[x][y])
    requires |Group(g, PuyoPosition(x, y))| < MinChainLength
    ensures ScanInv(g, x + 1, y, visited + Group(g, PuyoPosition(x, y)), chains, starts)
  {
    var s := PuyoPosition(x, y);
    var G := Group(g, s);
    var v := visited + G;
    FreshGroup(g, x, y, visited, chains, starts);
    VisitGroup(g, x, y, visited, chains, starts);
    StartsBeforeNext(x, y, starts);
    forall q | q in v && |Group(g, q)| >= MinChainLength
      ensures q in Covered(chains)
    {
      assert q in G ==> Group(g, q) == G;
    }
  }

  /** A record of a new group, disjoint from the visited cells, joins the records. */
  lemma AddRecord(g: Grid, visited: set<PuyoPosition>, chains: seq<ChainResult>, starts: seq<PuyoPosition>,
                  c: ChainResult, s: PuyoPosition)
    requires RecordsOf(g, visited, chains, starts)
    requires IsChainAt(g, c, s) && c.eliminatedPuyos !! visited
    ensures RecordsOf(g, visited + c.eliminatedPuyos, chains + [c], starts + [s])
  {
    AddRecordFound(g, visited, chains, starts, c, s);
    AddRecordDisjoint(visited, chains, c);
    AddRecordCovers(g, visited, chains, c);
  }

  lemma AddRecordCovers(g: Grid, visited: set<PuyoPosition>, chains: seq<ChainResult>, c: ChainResult)
    requires forall q :: q in visited && |Group(g, q)| >= MinChainLength ==> q in Covered(chains)
    ensures forall q :: q in visited + c.eliminatedPuyos && |Group(g, q)| >= MinChainLength ==> q in Covered(chains + [c])
  {
    var cs := chains + [c];
    assert cs[..|cs| - 1] == chains;
    assert Covered(cs) == Covered(chains) + c.eliminatedPuyos;
  }

  lemma AddRecordFound(g: Grid, visited: set<PuyoPosition>, chains: seq<ChainResult>, starts: seq<PuyoPosition>,
                       c: ChainResult, s: PuyoPosition)
    requires |starts| == |chains|
    requires forall i :: 0 <= i < |chains| ==> IsChainAt(g, chains[i], starts[i]) && chains[i].eliminatedPuyos <= visited
    requires IsChainAt(g, c, s)
    ensures forall i :: 0 <= i < |chains| + 1 ==>
      IsChainAt(g, (chains + [c])[i], (starts + [s])[i]) && (chains + [c])[i].eliminatedPuyos <= visited + c.eliminatedPuyos
  {
    var cs := chains + [c];
    var ss := starts + [s];
    forall i | 0 <= i < |cs|
      ensures IsChainAt(g, cs[i], ss[i]) && cs[i].eliminatedPuyos <= visited + c.eliminatedPuyos
    {
      if i < |chains| {
        assert cs[i] == chains[i] && ss[i] == starts[i];
      }
    }
  }

  lemma AddRecordDisjoint(visited: set<PuyoPosition>, chains: seq<ChainResult>, c: ChainResult)
    requires forall i :: 0 <= i < |chains| ==> chains[i].eliminatedPuyos <= visited
    requires forall i, j :: 0 <= i < j < |chains| ==> chains[i].eliminatedPuyos !! chains[j].eliminatedPuyos
    requires c.eliminatedPuyos !! visited
    ensures forall i, j :: 0 <= i < j < |chains| + 1 ==> (chains + [c])[i].eliminatedPuyos !! (chains + [c])[j].eliminatedPuyos
  {
    var cs := chains + [c];
    forall i, j | 0 <= i < j < |cs|
      ensures cs[i].eliminatedPuyos !! cs[j].eliminatedPuyos
    {
      assert cs[i] == chains[i];
      if j < |chains| {
        assert cs[j] == chains[j];
      } else {
        assert cs[j] == c;
        assert chains[i].eliminatedPuyos <= visited;
      }
    }
  }

  /** A new start after all earlier ones, before every cell of its record, keeps the starts in order. */
  lemma AddStart(x: int, y: int, chains: seq<ChainResult>, starts: seq<PuyoPosition>, c: ChainResult)
    requires StartsFirst(chains, starts) && StartsBefore(x, y, starts)
    requires forall q :: q in c.eliminatedPuyos ==> !Before(q, PuyoPosition(x, y))
    ensures StartsFirst(chains + [c], starts + [PuyoPosition(x, y)])
    ensures StartsBefore(x + 1, y, starts + [PuyoPosition(x, y)])
  {
    var s := PuyoPosition(x, y);
    var cs := chains + [c];
    var ss := starts + [s];
    forall i | 0 <= i < |cs|
      ensures forall q :: q in cs[i].eliminatedPuyos ==> !Before(q, ss[i])
    {
      if i < |chains| {
        assert cs[i] == chains[i] && ss[i] == starts[i];
      }
    }
    forall i, j | 0 <= i < j < |ss|
      ensures Before(ss[i], ss[j])
    {
      assert ss[i] == starts[i];
      if j < |chains| {
        assert ss[j] == starts[j];
      } else {
        assert ss[j] == s && Before(starts[i], s);
      }
    }
    forall i | 0 <= i < |ss|
      ensures Before(ss[i], PuyoPosition(x + 1, y))
    {
      if i < |starts| {
        assert ss[i] == starts[i] && Before(starts[i], s);
      }
    }
  }

  /** An unvisited start whose group is big enough adds a record for its group. */
  lemma ScanAddChain(g: Grid, x: int, y: int, visited: set<PuyoPosition>,
                     chains: seq<ChainResult>, starts: seq<PuyoPosition>)
    requires ScanInv(g, x, y, visited, chains, starts)
    requires InBounds(g, PuyoPosition(x, y)) && PuyoPosition(x, y) !in visited && Matchable(g[x][y])
    requires |Group(g, PuyoPosition(x, y))| >= MinChainLength
    ensures var G := Group(g, PuyoPosition(x, y));
      ScanInv(g, x + 1, y, visited + G,
              chains + [ChainResult(G, 1, |G|, AuthenticChainScore(|G|, g[x][y]), g[x][y])],
              starts + [PuyoPosition(x, y)])
  {
    var s := PuyoPosition(x, y);
    var G := Group(g, s);
    var c := ChainResult(G, 1, |G|, AuthenticChainScore(|G|, g[x][y]), g[x][y]);
    FreshGroup(g, x, y, visited, chains, starts);
    VisitGroup(g, x, y, visited, chains, starts);
    assert IsChainAt(g, c, s);
    AddRecord(g, visited, chains, starts, c, s);
    AddStart(x, y, chains, starts, c);
  }

  /** The end of a row is the start of the next one. */
  lemma ScanNextRow(g: Grid, width: int, height: int, y: int, visited: set<PuyoPosition>,
                    chains: seq<ChainResult>, starts: seq<PuyoPosition>)
    requires Rectangular(g, width, height)
    requires ScanInv(g, width, y, visited, chains, starts)
    ensures ScanInv(g, 0, y + 1, visited, chains, starts)
  {
    forall s | InBounds(g, s) && Before(s, PuyoPosition(0, y + 1)) && Matchable(g[s.x][s.y])
      ensures s in visited
    {
      assert Before(s, PuyoPosition(width, y));
    }
    forall i | 0 <= i < |chains|
      ensures Before(starts[i], PuyoPosition(0, y + 1))
    {
      assert Before(starts[i], PuyoPosition(width, y));
    }
  }

  /** After the last row the records are exactly what find_all_chains promises. */
  lemma ScanDone(g: Grid, width: int, height: int, visited: set<PuyoPosition>,
                 chains: seq<ChainResult>, starts: seq<PuyoPosition>)
    requires Rectangular(g, width, height)
    requires ScanInv(g, 0, height, visited, chains, starts)
    ensures ChainsOf(g, chains)
  {
    ScanDoneRecords(g, chains, starts);
    ScanDoneComplete(g, width, height, visited, chains);
    ScanDoneOrder(chains, starts);
  }

  lemma ScanDoneRecords(g: Grid, chains: seq<ChainResult>, starts: seq<PuyoPosition>)
    requires |starts| == |chains|
    requires forall i :: 0 <= i < |chains| ==> IsChainAt(g, chains[i], starts[i])
    ensures forall i :: 0 <= i < |chains| ==> IsChain(g, chains[i])
  {
    forall i | 0 <= i < |chains|
      ensures IsChain(g, chains[i])
    {
      assert IsChainAt(g, chains[i], starts[i]);
    }
  }

  lemma ScanDoneComplete(g: Grid, width: int, height: int, visited: set<PuyoPosition>, chains: seq<ChainResult>)
    requires Rectangular(g, width, height)
    requires ScannedUpTo(g, 0, height, visited)
    requires forall q :: q in visited && |Group(g, q)| >= MinChainLength ==> q in Covered(chains)
    ensures forall p :: p in Poppable(g) ==> exists i :: 0 <= i < |chains| && p in chains[i].eliminatedPuyos
  {
    forall p | p in Poppable(g)
      ensures exists i :: 0 <= i < |chains| && p in chains[i].eliminatedPuyos
    {
      assert InBounds(g, p) && |Group(g, p)| >= MinChainLength;
      assert Matchable(g[p.x][p.y]);
      assert Before(p, PuyoPosition(0, height));
      CoveredHasRecord(chains, p);
    }
  }

  lemma ScanDoneOrder(chains: seq<ChainResult>, starts: seq<PuyoPosition>)
    requires |starts| == |chains|
    requires forall i :: 0 <= i < |chains| ==> starts[i] in chains[i].eliminatedPuyos
    requires StartsFirst(chains, starts)
    ensures forall i, j :: 0 <= i < j < |chains| ==> ScanEarlier(chains[i].eliminatedPuyos, chains[j].eliminatedPuyos)
  {
    forall i, j | 0 <= i < j < |chains|
      ensures ScanEarlier(chains[i].eliminatedPuyos, chains[j].eliminatedPuyos)
    {
      forall q | q in chains[j].eliminatedPuyos
        ensures Before(starts[i], q)
      {
        assert !Before(q, starts[j]);
        assert Before(starts[i], starts[j]);
      }
    }
  }

  /** The records of find_all_chains eliminate exactly the cells of the big groups. */
  lemma ChainsCoverPoppable(g: Grid, chains: seq<ChainResult>)
    requires ChainsOf(g, chains)
    ensures Covered(chains) == Poppable(g)
  {
    forall q | q in Covered(chains)
      ensures q in Poppable(g)
    {
      CoveredHasRecord(chains, q);
      var i :| 0 <= i < |chains| && q in chains[i].eliminatedPuyos;
      var p :| IsChainAt(g, chains[i], p);
      GroupOfMember(g, p, q);
      assert q == PuyoPosition(q.x, q.y);
    }
    forall q | q in Poppable(g)
      ensures q in Covered(chains)
    {
      CoveredHasRecord(chains, q);
    }
  }

  /** find_all_chains returns no record exactly when no group is big enough. */
  lemma NoChainsIffStable(g: Grid, chains: seq<ChainResult>)
    requires ChainsOf(g, chains)
    ensures chains == [] <==> Poppable(g) == {}
  {
    ChainsCoverPoppable(g, chains);
    if chains != [] {
      assert IsChain(g, chains[0]);
      var p :| IsChainAt(g, chains[0], p);
      CoveredNonEmpty(chains, p);
    }
  }

  /** A first record that eliminates p puts p among the covered cells. */
  lemma CoveredNonEmpty(chains: seq<ChainResult>, p: PuyoPosition)
    requires chains != [] && p in chains[0].eliminatedPuyos
    ensures Covered(chains) != {}
  {
    CoveredHasRecord(chains, p);
  }

  /** Every record of find_all_chains is a group of the board with at least MIN_CHAIN_LENGTH puyos of its kind. */
  lemma ChainIsGroupOfEachMember(g: Grid, c: ChainResult, q: PuyoPosition)
    requires IsChain(g, c) && q in c.eliminatedPuyos
    ensures Group(g, q) == c.eliminatedPuyos && |Group(g, q)| >= MinChainLength
    ensures InBounds(g, q) && g[q.x][q.y] == c.chainType && Matchable(c.chainType)
  {
    var p :| IsChainAt(g, c, p);
    GroupOfMember(g, p, q);
  }
}
