/**
 * Value-level theory of the Python puzzle board (src/puzzle/puyo_grid.py and
 * src/core/constants.py): cell kinds, the board as a column-major sequence,
 * what gravity does to one column, and 4-connected groups of one kind.
 * In this board y = 0 is the TOP row and pieces fall towards y = height - 1.
 */
module PyBoard {

  /** PuyoType of src/core/constants.py; Garbage is the nuisance puyo. */
  datatype PuyoType = Empty | Red | Blue | Green | Yellow | Purple | Orange | Cyan | Garbage

  const GridWidth: int := 6
  const GridHeight: int := 12
  const MinChainLength: int := 4
  const ChainScoreBase: int := 10

  datatype PuyoPosition = PuyoPosition(x: int, y: int)

  /** DIRECTIONS: up, right, down, left. */
  const Directions: seq<(int, int)> := [(0, -1), (1, 0), (0, 1), (-1, 0)]

  function Step(p: PuyoPosition, d: (int, int)): PuyoPosition {
    PuyoPosition(p.x + d.0, p.y + d.1)
  }

  predicate Adjacent(p: PuyoPosition, q: PuyoPosition) {
    (p.x == q.x && (p.y == q.y + 1 || q.y == p.y + 1)) ||
    (p.y == q.y && (p.x == q.x + 1 || q.x == p.x + 1))
  }

  /** The four neighbours reached through Directions are exactly the adjacent cells. */
  lemma StepsAreAdjacent(p: PuyoPosition, q: PuyoPosition)
    ensures Adjacent(p, q) <==> exists i :: 0 <= i < 4 && q == Step(p, Directions[i])
  {
    if Adjacent(p, q) {
      if q == Step(p, Directions[0]) {
      } else if q == Step(p, Directions[1]) {
      } else if q == Step(p, Directions[2]) {
      } else {
        assert q == Step(p, Directions[3]);
      }
    }
  }

  /** Column-major snapshot: g[x][y]. */
  type Grid = seq<seq<PuyoType>>

  /** Every column has the same height. */
  predicate Rectangular(g: Grid, width: int, height: int) {
    |g| == width && forall x :: 0 <= x < |g| ==> |g[x]| == height
  }

  predicate InBounds(g: Grid, p: PuyoPosition) {
    0 <= p.x < |g| && 0 <= p.y < |g[p.x]|
  }

  /** get_puyo: the kind at p, Empty off the board. */
  function Get(g: Grid, p: PuyoPosition): PuyoType {
    if InBounds(g, p) then g[p.x][p.y] else Empty
  }

  /** The board with cell p replaced; a position off the board changes nothing. */
  function Put(g: Grid, p: PuyoPosition, t: PuyoType): Grid {
    if InBounds(g, p) then g[p.x := g[p.x][p.y := t]] else g
  }

  /** Kinds that form groups: not Empty and not Garbage. */
  predicate Matchable(t: PuyoType) {
    t != Empty && t != Garbage
  }

  function Blank(n: nat): (r: seq<PuyoType>)
    ensures |r| == n && forall i :: 0 <= i < n ==> r[i] == Empty
  {
    seq(n, _ => Empty)
  }

  function BlankGrid(width: nat, height: nat): (g: Grid)
    ensures Rectangular(g, width, height)
    ensures forall x, y :: 0 <= x < width && 0 <= y < height ==> g[x][y] == Empty
  {
    seq(width, _ => Blank(height))
  }

  // ---------------------------------------------------------------------
  // Gravity on one column
  // ---------------------------------------------------------------------

  /** The non-empty cells of a column, top to bottom. */
  function Filled(s: seq<PuyoType>): (r: seq<PuyoType>)
    ensures |r| <= |s|
    ensures forall i :: 0 <= i < |r| ==> r[i] != Empty
  {
    if |s| == 0 then [] else (if s[0] != Empty then [s[0]] else []) + Filled(s[1..])
  }

  /** The column after gravity: the empty cells on top, the others in order at the bottom. */
  function Compacted(s: seq<PuyoType>): (r: seq<PuyoType>)
    ensures |r| == |s|
  {
    Blank(|s| - |Filled(s)|) + Filled(s)
  }

  /** The number of non-empty cells that have an empty cell somewhere below them. */
  function Moves(s: seq<PuyoType>): nat {
    if |s| == 0 then 0 else (if s[0] != Empty && Empty in s[1..] then 1 else 0) + Moves(s[1..])
  }

  /** No empty cell lies below a non-empty one. */
  predicate NoGap(s: seq<PuyoType>) {
    forall i, j :: 0 <= i < j < |s| && s[i] != Empty ==> s[j] != Empty
  }

  /** Gravity on the whole board. */
  function Gravity(g: Grid): (r: Grid)
    ensures |r| == |g| && forall x :: 0 <= x < |g| ==> r[x] == Compacted(g[x])
  {
    seq(|g|, x requires 0 <= x < |g| => Compacted(g[x]))
  }

  function SumMoves(g: Grid): nat {
    if |g| == 0 then 0 else SumMoves(g[..|g| - 1]) + Moves(g[|g| - 1])
  }

  lemma {:induction false} FilledAppend(a: seq<PuyoType>, b: seq<PuyoType>)
    ensures Filled(a + b) == Filled(a) + Filled(b)
    decreases |a|
  {
    if |a| == 0 {
      assert a + b == b;
    } else {
      assert (a + b)[1..] == a[1..] + b;
      FilledAppend(a[1..], b);
    }
  }

  lemma {:induction false} FilledOfNoEmpty(s: seq<PuyoType>)
    requires forall i :: 0 <= i < |s| ==> s[i] != Empty
    ensures Filled(s) == s
    decreases |s|
  {
    if |s| > 0 {
      FilledOfNoEmpty(s[1..]);
      assert [s[0]] + s[1..] == s;
    }
  }

  lemma {:induction false} FilledOfBlank(n: nat)
    ensures Filled(Blank(n)) == []
    decreases n
  {
    if n > 0 {
      assert Blank(n)[1..] == Blank(n - 1);
      FilledOfBlank(n - 1);
    }
  }

  /**
   * The state of the in-place gravity pass over a column c0 once every cell
   * below r has been read: the column reads, from the top, the untouched cells
   * c0[..r + 1], then w - r empty cells, then the puyos of c0[r + 1..] in order.
   */
  ghost predicate Settling(c0: seq<PuyoType>, col: seq<PuyoType>, r: int, w: int) {
    -1 <= r <= w < |c0| &&
    w - r == |c0[r + 1..]| - |Filled(c0[r + 1..])| &&
    col == c0[..r + 1] + Blank(w - r) + Filled(c0[r + 1..])
  }

  lemma SettleRead(c0: seq<PuyoType>, col: seq<PuyoType>, r: int, w: int)
    requires 0 <= r && Settling(c0, col, r, w)
    ensures |col| == |c0| && col[r] == c0[r]
  {
  }

  /** Reading a puyo with a gap below it moves the puyo down to w. */
  lemma SettleMove(c0: seq<PuyoType>, col: seq<PuyoType>, r: int, w: int)
    requires 0 <= r && Settling(c0, col, r, w) && c0[r] != Empty && w != r
    ensures Settling(c0, col[w := c0[r]][r := Empty], r - 1, w - 1)
    ensures Moves(c0[r..]) == Moves(c0[r + 1..]) + 1
  {
    var s := c0[r + 1..];
    assert c0[r..] == [c0[r]] + s;
    assert c0[..r + 1] == c0[..r] + [c0[r]];
    assert c0[(r - 1) + 1..] == c0[r..] && c0[..(r - 1) + 1] == c0[..r];
    EmptyInIffShorter(s);
    assert Filled(c0[r..]) == [c0[r]] + Filled(s);
    var moved := col[w := c0[r]][r := Empty];
    var want := c0[..r] + Blank(w - r) + Filled(c0[r..]);
    assert |moved| == |want|;
    forall i | 0 <= i < |want|
      ensures moved[i] == want[i]
    {
      if i < r {
      } else if i < w {
      } else if i == w {
      } else {
        assert want[i] == Filled(s)[i - w - 1];
        assert col[i] == Filled(s)[i - w - 1];
      }
    }
  }

  /** Reading a puyo that already rests on the stack leaves it in place. */
  lemma SettleKeep(c0: seq<PuyoType>, col: seq<PuyoType>, r: int, w: int)
    requires 0 <= r && Settling(c0, col, r, w) && c0[r] != Empty && w == r
    ensures Settling(c0, col, r - 1, w - 1)
    ensures Moves(c0[r..]) == Moves(c0[r + 1..])
  {
    var s := c0[r + 1..];
    assert c0[r..] == [c0[r]] + s;
    assert c0[..r + 1] == c0[..r] + [c0[r]];
    assert c0[(r - 1) + 1..] == c0[r..] && c0[..(r - 1) + 1] == c0[..r];
    EmptyInIffShorter(s);
    assert Filled(c0[r..]) == [c0[r]] + Filled(s);
  }

  /** Reading an empty cell widens the gap. */
  lemma SettleSkip(c0: seq<PuyoType>, col: seq<PuyoType>, r: int, w: int)
    requires 0 <= r && Settling(c0, col, r, w) && c0[r] == Empty
    ensures Settling(c0, col, r - 1, w)
    ensures Moves(c0[r..]) == Moves(c0[r + 1..])
  {
    var s := c0[r + 1..];
    assert c0[r..] == [c0[r]] + s;
    assert c0[..r + 1] == c0[..r] + [c0[r]];
    assert c0[(r - 1) + 1..] == c0[r..] && c0[..(r - 1) + 1] == c0[..r];
    assert Blank(w - r + 1) == [Empty] + Blank(w - r);
  }

  /** The gravity pass ends with the column compacted. */
  lemma SettleDone(c0: seq<PuyoType>, col: seq<PuyoType>, w: int)
    requires Settling(c0, col, -1, w)
    ensures col == Compacted(c0) && c0[-1 + 1..] == c0
  {
    assert c0[..0] == [] && c0[0..] == c0;
  }

  /** A column holds an empty cell exactly when gravity has something to drop into. */
  lemma {:induction false} EmptyInIffShorter(s: seq<PuyoType>)
    ensures Empty in s <==> |Filled(s)| < |s|
    decreases |s|
  {
    if |s| > 0 {
      EmptyInIffShorter(s[1..]);
      assert s == [s[0]] + s[1..];
    }
  }

  /** Gravity keeps the order of the puyos in a column. */
  lemma CompactedKeepsOrder(s: seq<PuyoType>)
    ensures Filled(Compacted(s)) == Filled(s)
  {
    var f := Filled(s);
    FilledAppend(Blank(|s| - |f|), f);
    FilledOfBlank(|s| - |f|);
    FilledOfNoEmpty(f);
  }

  /** Gravity twice is gravity once. */
  lemma CompactedIdempotent(s: seq<PuyoType>)
    ensures Compacted(Compacted(s)) == Compacted(s)
  {
    CompactedKeepsOrder(s);
  }

  /** Gravity neither creates nor destroys puyos. */
  lemma {:induction false} CompactedPermutes(s: seq<PuyoType>)
    ensures multiset(Compacted(s)) == multiset(s)
    decreases |s|
  {
    if |s| > 0 {
      CompactedPermutes(s[1..]);
      if s[0] == Empty {
        PermutesEmptyHead(s);
      } else {
        PermutesFilledHead(s);
      }
    }
  }

  lemma PermutesEmptyHead(s: seq<PuyoType>)
    requires |s| > 0 && s[0] == Empty
    requires multiset(Compacted(s[1..])) == multiset(s[1..])
    ensures multiset(Compacted(s)) == multiset(s)
  {
    var t := s[1..];
    var n := |t| - |Filled(t)|;
    assert s == [s[0]] + t;
    assert Compacted(s) == [Empty] + Compacted(t) by {
      assert Blank(n + 1) == [Empty] + Blank(n);
    }
  }

  lemma PermutesFilledHead(s: seq<PuyoType>)
    requires |s| > 0 && s[0] != Empty
    requires multiset(Compacted(s[1..])) == multiset(s[1..])
    ensures multiset(Compacted(s)) == multiset(s)
  {
    var t := s[1..];
    var f := Filled(t);
    var n := |t| - |f|;
    assert s == [s[0]] + t;
    assert Compacted(s) == Blank(n) + ([s[0]] + f);
    assert multiset(Compacted(s)) == multiset(Blank(n)) + multiset{s[0]} + multiset(f);
  }

  /** After gravity nothing floats: below a puyo there is only puyos. */
  lemma CompactedNoGap(s: seq<PuyoType>)
    ensures NoGap(Compacted(s))
  {
  }

  lemma {:induction false} NoGapIffCompacted(s: seq<PuyoType>)
    ensures NoGap(s) <==> Compacted(s) == s
    decreases |s|
  {
    if |s| > 0 {
      NoGapIffCompacted(s[1..]);
      var f := Filled(s[1..]);
      assert s == [s[0]] + s[1..];
      if s[0] == Empty {
        assert Blank(|s| - |f|) == [Empty] + Blank(|s| - 1 - |f|);
        assert Compacted(s) == [Empty] + Compacted(s[1..]);
        if NoGap(s[1..]) {
          assert NoGap(s) by {
            forall i, j | 0 <= i < j < |s| && s[i] != Empty
              ensures s[j] != Empty
            {
              assert s[1..][i - 1] != Empty;
              assert s[1..][j - 1] == s[j];
            }
          }
        }
        if NoGap(s) {
          assert NoGap(s[1..]) by {
            forall i, j | 0 <= i < j < |s[1..]| && s[1..][i] != Empty
              ensures s[1..][j] != Empty
            {
              assert s[i + 1] != Empty;
            }
          }
        }
      } else {
        if NoGap(s) {
          assert forall i :: 0 <= i < |s| ==> s[i] != Empty by {
            forall i | 0 <= i < |s|
              ensures s[i] != Empty
            {
              if i > 0 {
                assert s[0] != Empty;
              }
            }
          }
          FilledOfNoEmpty(s);
        }
        if Compacted(s) == s {
          assert Compacted(s)[0] == (if |Filled(s)| < |s| then Empty else Filled(s)[0]);
          assert Filled(s) == [s[0]] + f;
          assert forall i :: 0 <= i < |s| ==> s[i] != Empty by {
            forall i | 0 <= i < |s|
              ensures s[i] != Empty
            {
              assert Compacted(s)[i] == Filled(s)[i];
            }
          }
        }
      }
    }
  }

  lemma {:induction false} MovesZeroIffNoGap(s: seq<PuyoType>)
    ensures Moves(s) == 0 <==> NoGap(s)
    decreases |s|
  {
    if |s| > 0 {
      MovesZeroIffNoGap(s[1..]);
      assert s == [s[0]] + s[1..];
      if Moves(s) == 0 {
        assert NoGap(s) by {
          forall i, j | 0 <= i < j < |s| && s[i] != Empty
            ensures s[j] != Empty
          {
            if i == 0 {
              assert s[j] == s[1..][j - 1];
            } else {
              assert s[1..][i - 1] != Empty;
              assert s[1..][j - 1] == s[j];
            }
          }
        }
      }
      if NoGap(s) {
        assert NoGap(s[1..]) by {
          forall i, j | 0 <= i < j < |s[1..]| && s[1..][i] != Empty
            ensures s[1..][j] != Empty
          {
            assert s[i + 1] != Empty;
          }
        }
        forall j | 0 <= j < |s[1..]| && s[0] != Empty
          ensures s[1..][j] != Empty
        {
          assert s[1..][j] == s[j + 1];
        }
      }
    }
  }

  /** Gravity moves nothing exactly on a column it leaves unchanged. */
  lemma MovesZeroIffCompacted(s: seq<PuyoType>)
    ensures Moves(s) == 0 <==> Compacted(s) == s
  {
    MovesZeroIffNoGap(s);
    NoGapIffCompacted(s);
  }

  /** On a settled board gravity reports no moves. */
  lemma {:induction false} SumMovesOfGravity(g: Grid)
    ensures SumMoves(Gravity(g)) == 0
    decreases |g|
  {
    if |g| > 0 {
      assert Gravity(g)[..|g| - 1] == Gravity(g[..|g| - 1]);
      SumMovesOfGravity(g[..|g| - 1]);
      CompactedIdempotent(g[|g| - 1]);
      MovesZeroIffCompacted(Compacted(g[|g| - 1]));
    }
  }

  /** Gravity on the whole board is idempotent. */
  lemma GravityIdempotent(g: Grid)
    ensures Gravity(Gravity(g)) == Gravity(g)
  {
    forall x | 0 <= x < |g|
      ensures Gravity(Gravity(g))[x] == Gravity(g)[x]
    {
      CompactedIdempotent(g[x]);
    }
  }

  /** Index of the topmost puyo of a column, |s| when the column is empty. */
  function FirstFilled(s: seq<PuyoType>): (r: nat)
    ensures r <= |s|
    ensures forall i :: 0 <= i < r ==> s[i] == Empty
    ensures r < |s| ==> s[r] != Empty
  {
    if |s| == 0 then 0 else if s[0] != Empty then 0 else 1 + FirstFilled(s[1..])
  }

  /** get_column_height: the height of the stack measured from its topmost puyo. */
  function Height(s: seq<PuyoType>): (r: nat)
    ensures r <= |s|
    ensures r == 0 <==> forall i :: 0 <= i < |s| ==> s[i] == Empty
  {
    |s| - FirstFilled(s)
  }

  /** The lowest empty cell of a column, -1 when the column is full. */
  function LowestEmpty(s: seq<PuyoType>): (r: int)
    ensures -1 <= r < |s|
    ensures r >= 0 ==> s[r] == Empty && forall i :: r < i < |s| ==> s[i] != Empty
    ensures r == -1 <==> Empty !in s
  {
    if |s| == 0 then -1
    else if s[|s| - 1] == Empty then |s| - 1
    else LowestEmpty(s[..|s| - 1])
  }

  /** On a settled column the height counts the puyos. */
  lemma HeightOfSettled(s: seq<PuyoType>)
    requires NoGap(s)
    ensures Height(s) == |Filled(s)|
  {
    NoGapIffCompacted(s);
    var f := Filled(s);
    var k := |s| - |f|;
    assert s == Blank(k) + f;
    assert forall i :: 0 <= i < k ==> s[i] == Empty;
    assert k < |s| ==> s[k] == f[0];
  }

  /** On a settled column a dropped puyo lands right on top of the stack. */
  lemma LowestEmptyOfSettled(s: seq<PuyoType>)
    requires NoGap(s)
    ensures LowestEmpty(s) == |s| - 1 - Height(s)
  {
    HeightOfSettled(s);
    var k := |s| - |Filled(s)|;
    SettledShape(s);
    var r := LowestEmpty(s);
    if k > 0 {
      assert s[k - 1] == Empty;
      assert r <= k - 1;
    }
  }

  /** A settled column is its empty cells followed by its puyos. */
  lemma SettledShape(s: seq<PuyoType>)
    requires NoGap(s)
    ensures forall i :: 0 <= i < |s| ==> (s[i] == Empty <==> i < |s| - |Filled(s)|)
  {
    NoGapIffCompacted(s);
    var f := Filled(s);
    var k := |s| - |f|;
    assert s == Blank(k) + f;
    assert forall i :: k <= i < |s| ==> s[i] == f[i - k];
  }

  /** Filling the lowest empty cell of a settled column keeps it settled. */
  lemma DropKeepsSettled(s: seq<PuyoType>, t: PuyoType)
    requires NoGap(s) && LowestEmpty(s) >= 0
    ensures NoGap(s[LowestEmpty(s) := t])
  {
  }

  // ---------------------------------------------------------------------
  // Groups
  // ---------------------------------------------------------------------

  /** The depth-first search's test for a cell: on the board and of kind t. */
  predicate Same(g: Grid, t: PuyoType, p: PuyoPosition) {
    InBounds(g, p) && g[p.x][p.y] == t
  }

  predicate IsPath(g: Grid, t: PuyoType, path: seq<PuyoPosition>) {
    |path| > 0 &&
    (forall i :: 0 <= i < |path| ==> Same(g, t, path[i])) &&
    (forall i :: 0 < i < |path| ==> Adjacent(path[i - 1], path[i]))
  }

  /** q is 4-connected to p through cells of kind t. */
  ghost predicate Linked(g: Grid, t: PuyoType, p: PuyoPosition, q: PuyoPosition) {
    exists path :: IsPath(g, t, path) && path[0] == p && path[|path| - 1] == q
  }

  /** Every cell 4-connected to p through cells of kind t. */
  ghost function Component(g: Grid, t: PuyoType, p: PuyoPosition): set<PuyoPosition> {
    set x, y | 0 <= x < |g| && 0 <= y < |g[x]| && Linked(g, t, p, PuyoPosition(x, y)) :: PuyoPosition(x, y)
  }

  /** The group find_connected_puyos is meant to return: empty for an invalid, Empty or Garbage start. */
  ghost function Group(g: Grid, p: PuyoPosition): set<PuyoPosition> {
    if InBounds(g, p) && Matchable(g[p.x][p.y]) then Component(g, g[p.x][p.y], p) else {}
  }

  /** Closed under neighbours of kind t: a search that stops here has nothing left to visit. */
  ghost predicate Closed(g: Grid, t: PuyoType, s: set<PuyoPosition>) {
    forall q, n :: q in s && Adjacent(q, n) && Same(g, t, n) ==> n in s
  }

  lemma LinkedEnds(g: Grid, t: PuyoType, p: PuyoPosition, q: PuyoPosition)
    requires Linked(g, t, p, q)
    ensures Same(g, t, p) && Same(g, t, q)
  {
    var path :| IsPath(g, t, path) && path[0] == p && path[|path| - 1] == q;
    assert Same(g, t, path[0]);
    assert Same(g, t, path[|path| - 1]);
  }

  lemma LinkedSelf(g: Grid, t: PuyoType, p: PuyoPosition)
    requires Same(g, t, p)
    ensures Linked(g, t, p, p)
  {
    assert IsPath(g, t, [p]);
  }

  /** A step from p onto the start of a path from n gives a path from p. */
  lemma LinkedPrepend(g: Grid, t: PuyoType, p: PuyoPosition, n: PuyoPosition, q: PuyoPosition)
    requires Same(g, t, p) && Adjacent(p, n) && Linked(g, t, n, q)
    ensures Linked(g, t, p, q)
  {
    var path :| IsPath(g, t, path) && path[0] == n && path[|path| - 1] == q;
    var longer := [p] + path;
    assert forall i :: 0 < i < |longer| ==> longer[i] == path[i - 1];
    assert IsPath(g, t, longer);
    assert longer[0] == p && longer[|longer| - 1] == q;
  }

  lemma LinkedSymmetric(g: Grid, t: PuyoType, p: PuyoPosition, q: PuyoPosition)
    requires Linked(g, t, p, q)
    ensures Linked(g, t, q, p)
  {
    var path :| IsPath(g, t, path) && path[0] == p && path[|path| - 1] == q;
    var back := seq(|path|, i requires 0 <= i < |path| => path[|path| - 1 - i]);
    assert forall i :: 0 <= i < |back| ==> back[i] == path[|path| - 1 - i];
    assert IsPath(g, t, back);
    assert back[0] == q && back[|back| - 1] == p;
  }

  lemma LinkedTransitive(g: Grid, t: PuyoType, p: PuyoPosition, q: PuyoPosition, r: PuyoPosition)
    requires Linked(g, t, p, q) && Linked(g, t, q, r)
    ensures Linked(g, t, p, r)
  {
    var first :| IsPath(g, t, first) && first[0] == p && first[|first| - 1] == q;
    var second :| IsPath(g, t, second) && second[0] == q && second[|second| - 1] == r;
    var joined := first + second[1..];
    assert forall i :: |first| <= i < |joined| ==> joined[i] == second[i - |first| + 1];
    assert IsPath(g, t, joined);
    assert joined[0] == p && joined[|joined| - 1] == r;
  }

  lemma InComponent(g: Grid, t: PuyoType, p: PuyoPosition, q: PuyoPosition)
    ensures q in Component(g, t, p) <==> Linked(g, t, p, q)
  {
    if Linked(g, t, p, q) {
      LinkedEnds(g, t, p, q);
      assert q == PuyoPosition(q.x, q.y);
    }
  }

  /** A set closed under neighbours of kind t that holds p holds every cell linked to p. */
  lemma ClosedHoldsLinked(g: Grid, t: PuyoType, s: set<PuyoPosition>, p: PuyoPosition, q: PuyoPosition)
    requires p in s && Closed(g, t, s) && Linked(g, t, p, q)
    ensures q in s
  {
    var path :| IsPath(g, t, path) && path[0] == p && path[|path| - 1] == q;
    var k := 0;
    while k < |path| - 1
      invariant 0 <= k < |path|
      invariant path[k] in s
    {
      assert Adjacent(path[k], path[k + 1]) && Same(g, t, path[k + 1]);
      k := k + 1;
    }
  }

  /**
   * The search result is the component: a set of cells linked to p, holding p
   * and closed under neighbours of kind t, is exactly p's component.
   */
  lemma ClosedLinkedIsComponent(g: Grid, t: PuyoType, s: set<PuyoPosition>, p: PuyoPosition)
    requires p in s && Closed(g, t, s)
    requires forall q :: q in s ==> Linked(g, t, p, q)
    ensures s == Component(g, t, p)
  {
    forall q | q in Component(g, t, p)
      ensures q in s
    {
      InComponent(g, t, p, q);
      ClosedHoldsLinked(g, t, s, p, q);
    }
    forall q | q in s
      ensures q in Component(g, t, p)
    {
      InComponent(g, t, p, q);
    }
  }

  /** Groups are equivalence classes: any member of a group has the same group. */
  lemma SameComponent(g: Grid, t: PuyoType, p: PuyoPosition, q: PuyoPosition)
    requires Linked(g, t, p, q)
    ensures Component(g, t, q) == Component(g, t, p)
  {
    LinkedSymmetric(g, t, p, q);
    forall r | r in Component(g, t, q)
      ensures r in Component(g, t, p)
    {
      InComponent(g, t, q, r);
      LinkedTransitive(g, t, p, q, r);
      InComponent(g, t, p, r);
    }
    forall r | r in Component(g, t, p)
      ensures r in Component(g, t, q)
    {
      InComponent(g, t, p, r);
      LinkedTransitive(g, t, q, p, r);
      InComponent(g, t, q, r);
    }
  }

  /** Two groups either coincide or share no cell. */
  lemma GroupsEqualOrDisjoint(g: Grid, p: PuyoPosition, q: PuyoPosition)
    ensures Group(g, p) == Group(g, q) || Group(g, p) !! Group(g, q)
  {
    if !(Group(g, p) !! Group(g, q)) {
      var r :| r in Group(g, p) && r in Group(g, q);
      var tp := g[p.x][p.y];
      var tq := g[q.x][q.y];
      InComponent(g, tp, p, r);
      InComponent(g, tq, q, r);
      LinkedEnds(g, tp, p, r);
      LinkedEnds(g, tq, q, r);
      SameComponent(g, tp, p, r);
      SameComponent(g, tq, q, r);
    }
  }

  /** A matchable start lies in its own group, and every member of a group has that group. */
  lemma GroupOfMember(g: Grid, p: PuyoPosition, q: PuyoPosition)
    requires q in Group(g, p)
    ensures InBounds(g, q) && Matchable(g[q.x][q.y]) && g[q.x][q.y] == g[p.x][p.y]
    ensures Group(g, q) == Group(g, p)
  {
    var t := g[p.x][p.y];
    InComponent(g, t, p, q);
    LinkedEnds(g, t, p, q);
    SameComponent(g, t, p, q);
  }

  lemma GroupHasStart(g: Grid, p: PuyoPosition)
    ensures p in Group(g, p) <==> InBounds(g, p) && Matchable(g[p.x][p.y])
  {
    if InBounds(g, p) && Matchable(g[p.x][p.y]) {
      LinkedSelf(g, g[p.x][p.y], p);
      InComponent(g, g[p.x][p.y], p, p);
    }
  }
}
