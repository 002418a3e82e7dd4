# Puyo dungeon core in Dafny

This project models the core of a roguelike game built on a falling-puyo
puzzle, together with the game's bookkeeping, and proves properties of
that model. The repository has two versions of the puzzle. The Unity one
is written in C#. The pygame one is written in Python.

The C# side is modelled as follows:

- `PuyoTypes` models the cell record (`PuyoType.cs`).
- `PuzzleBoard` models the grid and its flood fill (`PuzzleGrid.cs`).
- `PuzzleChains` models the chain manager (`PuzzleManager.cs`): matching, removal, gravity, chain rounds, spawning and game over.
- `FallingPair` models the falling pair (`FallingPuyo.cs`).
- `Damage` models the damage formulas (`DamageCalculator.cs`).

The Python puzzle (`puyo_grid.py`, `falling_system.py`) is modelled as follows:

- `PyBoard` holds the board as a value: gravity, column heights and 4-connected groups.
- `PyChains` holds chain scoring and the contract of `find_all_chains`.
- `PyLevels` holds a level and a whole cascade of `execute_full_chain_sequence`.
- `PyRules` holds the game-over test and `load_grid`.
- `PyGrid.PuyoGrid` is the grid object over a two-dimensional array. Every method is proved against those functions.
- `PyFalling` holds the falling pair and the falling system: moves, wall kicks, locking, spawning and the hard drop.

The bookkeeping is modelled as follows:

- `PyInventory` models the player's item inventory.
- `PyDungeon` models the dungeon map: node placement rules, elite conversion, node selection and availability.
- `PyEnemy` models enemies and enemy groups: damage, guard and defence buffs, targeting.
- `PyPlayer` models the player's data: hit points, gold, chain count and statistics.
- `PyPotions` models potions and the potion inventory.
- `PyArtifacts` models artifacts, their charges and triggers, and the artifact collection.
- `HitPoints` holds the capped heal and the floored damage, which the player and the enemies share.
- `GameRarity` holds the rarity grades.
- `Wrappers` holds an `Option` type.

Objects whose fields the source updates in place are classes. Examples are the grids, the falling pairs, the falling system, the inventories, the enemies and the collections. Their methods carry `modifies` clauses, and their loops carry invariants. Each such method is specified by a function of the old state, and the lemmas are proved about those functions. Pure computations are functions and lemmas.

## Model

| member | source | states |
|---|---|---|
| PuyoTypes.NewPuyoData | legacy/Scripts/Core/PuyoType.cs:29-37 | A new cell has the given colour and position, starts Falling, and so can never match. |
| PuzzleBoard.InComponent | Scripts/Battle/PuzzleGrid.cs:145-173 | A cell is in the group of p exactly when a 4-connected path of the target colour joins it to p. |
| PuzzleBoard.SameComponent | Scripts/Battle/PuzzleGrid.cs:145-173 | Two linked cells have the same group, so groups are equivalence classes. |
| PuzzleBoard.ComponentHasStart | Scripts/Battle/PuzzleGrid.cs:145-173 | The start lies in its own group exactly when it matches the target colour. |
| PuzzleBoard.ParentChainLinked | Scripts/Battle/PuzzleGrid.cs:155-173 | In a fill list where each later cell touches an earlier one, every cell is linked to the first. |
| PuzzleBoard.ClosedListHoldsLinked | Scripts/Battle/PuzzleGrid.cs:155-173 | A list that holds the start and is closed under matching neighbours holds every cell linked to the start. |
| PuzzleBoard.PuzzleGrid.constructor | Scripts/Battle/PuzzleGrid.cs:22-34 | Every cell holds a fresh Empty record that carries its own position. |
| PuzzleBoard.PuzzleGrid.IsValidPosition | Scripts/Battle/PuzzleGrid.cs:50-53 | True exactly for positions on the board. |
| PuzzleBoard.PuzzleGrid.IsPositionEmpty | Scripts/Battle/PuzzleGrid.cs:55-59 | True exactly for an on-board cell with no colour; false off the board. |
| PuzzleBoard.PuzzleGrid.GetPuyo | Scripts/Battle/PuzzleGrid.cs:61-65 | Some cell exactly on the board, and that cell records its own position; None off the board. |
| PuzzleBoard.PuzzleGrid.SetPuyo | Scripts/Battle/PuzzleGrid.cs:67-72 | The board after the call has the record at pos, re-stamped with pos; off the board nothing changes. |
| PuzzleBoard.PuzzleGrid.RemovePuyo | Scripts/Battle/PuzzleGrid.cs:74-85 | The cell at pos becomes a fresh Empty record; off the board nothing changes. |
| PuzzleBoard.PuzzleGrid.GetConnectedPuyos | Scripts/Battle/PuzzleGrid.cs:145-153 | The result lists each cell of the start's group exactly once, starting with the start; it is empty for a start that does not match. |
| PuzzleBoard.PuzzleGrid.FloodFill | Scripts/Battle/PuzzleGrid.cs:155-173 | The list only grows, and begins its new part with pos. Every new cell is closed under matching neighbours. The visited set only grows. |
| PuzzleBoard.PuzzleGrid.FillNeighbours | Scripts/Battle/PuzzleGrid.cs:166-172 | After the four directions from a freshly marked cell, every neighbour is resolved: outside the group, or visited and in the list. The visited set only grows. |
| PuzzleChains.ColumnMoveDown | legacy/Scripts/Battle/PuzzleManager.cs:154-191 | Moving a cell into the empty cell below keeps the column's stones and lowers its potential by one, so the gravity loop ends. |
| PuzzleChains.BoardMoveDown | legacy/Scripts/Battle/PuzzleManager.cs:154-191 | The SetPuyo/RemovePuyo pair of a gravity move swaps the two cells, keeps the board's stones and lowers its potential. |
| PuzzleChains.SettledLayout | legacy/Scripts/Battle/PuzzleManager.cs:154-191 | A settled column is its stones, in order, in the bottom rows, with empty rows above. |
| PuzzleChains.RemoveAllCells | legacy/Scripts/Battle/PuzzleManager.cs:146-152 | Removal keeps the shape, empties every listed cell and leaves every other cell as it was. |
| PuzzleChains.RemoveAllCount | legacy/Scripts/Battle/PuzzleManager.cs:146-152 | Removing distinct occupied cells lowers the stone count by exactly their number. |
| PuzzleChains.GroupShared | legacy/Scripts/Battle/PuzzleManager.cs:113-144 | Every member of a group has that same group. |
| PuzzleChains.GroupsMeet | legacy/Scripts/Battle/PuzzleManager.cs:113-144 | Two groups that share a cell are equal. |
| PuzzleChains.SelectedStep | legacy/Scripts/Battle/PuzzleManager.cs:113-144 | Scanning one more cell adds that cell's group exactly when the cell starts a large enough group. |
| PuzzleChains.ScanStepFill | legacy/Scripts/Battle/PuzzleManager.cs:124-140 | At an unchecked start, the scan invariant survives marking its group checked and, when large enough, appending it. |
| PuzzleChains.ScanDone | legacy/Scripts/Battle/PuzzleManager.cs:113-144 | After the last column every start has been scanned. |
| PuzzleChains.MatchedCellOccupied | legacy/Scripts/Battle/PuzzleManager.cs:113-144 | Every cell of a matched group is an occupied cell on the board. |
| PuzzleChains.RoundCount | legacy/Scripts/Battle/PuzzleManager.cs:78-111 | One chain round lowers the stone count by the number of cells it removed. |
| PuzzleChains.PuzzleManager.constructor | legacy/Scripts/Battle/PuzzleManager.cs:12-14 | A new manager is active, not processing chains and without a falling pair. |
| PuzzleChains.PuzzleManager.IsGameOverAlwaysTrue | legacy/Scripts/Battle/PuzzleManager.cs:58-64 | As written, IsGameOver holds on every valid board. |
| PuzzleChains.PuzzleManager.IsGameOverCorrected | legacy/Scripts/Battle/PuzzleManager.cs:58-64 | The corrected test is true exactly when the spawn cell is off the board or occupied. |
| PuzzleChains.PuzzleManager.CorrectedGameOverOnEmptyBoard | legacy/Scripts/Battle/PuzzleManager.cs:58-64 | On an empty board of positive size the corrected test lets play go on, while IsGameOver does not. |
| PuzzleChains.PuzzleManager.FindMatchingPuyos | legacy/Scripts/Battle/PuzzleManager.cs:113-144 | The result lists, once each, exactly the cells of the groups of at least minimumChainLength that hold a matchable cell; each is occupied. |
| PuzzleChains.PuzzleManager.ScanColumn | legacy/Scripts/Battle/PuzzleManager.cs:119-142 | The inner scan loop takes the scan invariant from the top of column x to its end. |
| PuzzleChains.PuzzleManager.RemovePuyos | legacy/Scripts/Battle/PuzzleManager.cs:146-152 | The board after the call is the old board with RemovePuyo applied to each listed position in order. |
| PuzzleChains.PuzzleManager.ApplyGravity | legacy/Scripts/Battle/PuzzleManager.cs:154-191 | Every column keeps its stones in order, and every column ends settled. A board that was already settled is unchanged. |
| PuzzleChains.PuzzleManager.GravityColumn | legacy/Scripts/Battle/PuzzleManager.cs:162-186 | One pass over column x keeps the pass invariant, and keeps the moved flag once it is set. |
| PuzzleChains.PuzzleManager.SpawnNextPuyo | legacy/Scripts/Battle/PuzzleManager.cs:33-56 | As written: nothing spawns while the game is stopped or a chain is processing. Otherwise the authentic game-over test holds, so the game ends and no pair ever spawns. |
| PuzzleChains.PuzzleManager.SpawnNextPuyoCorrected | legacy/Scripts/Battle/PuzzleManager.cs:33-56 | With the corrected game-over test, a pair spawns exactly when the game is active, no chain is processing and the spawn cell is free; a blocked spawn ends the game. |
| PuzzleChains.PuzzleManager.ProcessChains | legacy/Scripts/Battle/PuzzleManager.cs:78-111 | Gravity, then match rounds until none is left: the end board is the last board of that cascade from the old board. chainCount is the number of non-empty rounds and totalCleared the sum of their sizes, which equals the stones that left the board. The completion event fires exactly when some round ran. SpawnNextPuyo then ends the game and nothing spawns. |
| PuzzleChains.PuzzleManager.ResolveChains | legacy/Scripts/Battle/PuzzleManager.cs:82-102 | The board becomes the last board of a cascade from the old board: settled first, then one round per matched set. Each round removes exactly the matched cells and settles. chainCount counts the rounds, totalCleared adds their sizes, and the end board has no matches. |
| PuzzleChains.PuzzleManager.RunRounds | legacy/Scripts/Battle/PuzzleManager.cs:87-102 | From a settled board, each round removes exactly the cells in matched groups and settles; the loop stops at the first board with no matches. The counters are the number of rounds and the sum of their sizes. |
| PuzzleChains.PuzzleManager.CompleteChains | legacy/Scripts/Battle/PuzzleManager.cs:104-111 | The completion event carries the counters exactly when chainCount is positive. Processing ends, and SpawnNextPuyo ends an active game without spawning. |
| PuzzleChains.RoundsConserve | legacy/Scripts/Battle/PuzzleManager.cs:84-102 | Along a cascade, the cells cleared plus the stones left equal the stones at the start, and there are no more rounds than cleared cells. |
| PuzzleChains.ChainRunHasRoundIff | legacy/Scripts/Battle/PuzzleManager.cs:89-92 | A cascade has a round exactly when its settled start board has a match. |
| PuzzleChains.RoundsSnoc | legacy/Scripts/Battle/PuzzleManager.cs:94-101 | One more round extends a cascade, and the cleared total grows by its size. |
| PuzzleChains.PuzzleManager.ClearAndSettle | legacy/Scripts/Battle/PuzzleManager.cs:95-103 | The new board holds the same stones as the old board with exactly the given cells removed, and it is settled. The stone count drops by the number of cells. |
| PuzzleChains.PuzzleManager.OnPuyoLanded | legacy/Scripts/Battle/PuzzleManager.cs:26-31 | When the game is active, the board becomes the last board of the chain cascade from the old board, and the game then ends as SpawnNextPuyo decides. When it is stopped, the board is unchanged. |
| PuzzleChains.PuzzleManager.StopGame | legacy/Scripts/Battle/PuzzleManager.cs:193-200 | Play stops and the falling pair is discarded. |
| PuzzleChains.PuzzleManager.ResumeGame | legacy/Scripts/Battle/PuzzleManager.cs:202-209 | Play resumes while a pair is falling or a chain is processing. Otherwise SpawnNextPuyo runs and, as written, ends the game again without spawning. |
| FallingPair.Puyo2Position | Scripts/Battle/FallingPuyo.cs:133-143 | The satellite is a 4-neighbour of the anchor cell for every rotation in [0, 4). |
| FallingPair.NextRotation | Scripts/Battle/FallingPuyo.cs:89-119 | A clockwise turn gives (rot + 1) mod 4, which is again in [0, 4). |
| FallingPair.SatelliteSides | Scripts/Battle/FallingPuyo.cs:133-143 | The four rotations put the satellite on four different sides, and opposite rotations on opposite sides. |
| FallingPair.FourTurns | Scripts/Battle/FallingPuyo.cs:89-119 | Four turns return the pair to its rotation. |
| FallingPair.RotationTarget | Scripts/Battle/FallingPuyo.cs:89-119 | The landing spot of a turn is in place, else one left, else one right, whichever fits first; None when none fits. |
| FallingPair.LandedCells | Scripts/Battle/FallingPuyo.cs:154-176 | Landing keeps the shape and makes both on-board cells of the pair Landed and coloured in place. Every other cell is unchanged. |
| FallingPair.FallingPuyo.constructor | Scripts/Battle/FallingPuyo.cs:21-28 | The pair appears at (W/2, H-1), upright, controlled, with two fresh cells of the given colours. |
| FallingPair.FallingPuyo.CanMoveTo | Scripts/Battle/FallingPuyo.cs:121-126 | A cell is free exactly when it is on the board, not below row 0, and empty. |
| FallingPair.FallingPuyo.CanMoveToIsPositionEmpty | Scripts/Battle/FallingPuyo.cs:121-126 | The row test of CanMoveTo adds nothing to the grid's own emptiness test. |
| FallingPair.FallingPuyo.TryMove | Scripts/Battle/FallingPuyo.cs:73-87 | The pair moves by the direction exactly when both target cells are free; otherwise nothing changes. |
| FallingPair.FallingPuyo.TryRotate | Scripts/Battle/FallingPuyo.cs:89-119 | The pair turns clockwise at the first of in place, left kick and right kick that fits; when none fits nothing changes. |
| FallingPair.FallingPuyo.FindRotation | Scripts/Battle/FallingPuyo.cs:91-115 | The placement found is RotationTarget of the board, the position and the rotation. |
| FallingPair.FallingPuyo.FindKick | Scripts/Battle/FallingPuyo.cs:101-115 | A kick is found exactly when one fits: the left one when it fits, else the right one when it fits. |
| FallingPair.FallingPuyo.LandPuyo | Scripts/Battle/FallingPuyo.cs:154-176 | Both records become Landed and control is given up. A record takes its cell as position only when that cell is on the board; an off-board satellite keeps its old position, as SetPuyo returns early. Without a manager, or with a stopped one, the board is exactly the landed board. With an active manager, the board is the last board of the chain cascade from the landed board, and the game ends. |
| FallingPair.FallingPuyo.WriteLanded | Scripts/Battle/FallingPuyo.cs:154-166 | The board becomes the landed board, each record is Landed and takes its cell as position only when on the board, and control is given up. |
| FallingPair.FallingPuyo.HandleFalling | Scripts/Battle/FallingPuyo.cs:59-71 | The timer advances. Once a fall is due, the pair moves down one cell or lands, and the timer resets. |
| FallingPair.SpawnSatelliteOffBoard | Scripts/Battle/FallingPuyo.cs:133-143 | The satellite of a freshly spawned upright pair is above the top row, off the board, so the spawned pair never fits. |
| Damage.Pow | Scripts/Battle/DamageCalculator.cs:5-19 | A power of a non-negative base is non-negative, and a power of a base of at least 1 is at least 1. |
| Damage.RoundToIntNearest | Scripts/Battle/DamageCalculator.cs:5-19 | Mathf.RoundToInt lands within 1/2 of its argument, and a tie goes to the even neighbour. |
| Damage.RoundToIntOfInt | Scripts/Battle/DamageCalculator.cs:5-19 | An integer rounds to itself. |
| Damage.RoundToIntMonotone | Scripts/Battle/DamageCalculator.cs:5-19 | Rounding keeps order. |
| Damage.RoundToIntNonNegative | Scripts/Battle/DamageCalculator.cs:5-19 | A non-negative value rounds to a non-negative integer. |
| Damage.ChainDamageNearest | Scripts/Battle/DamageCalculator.cs:5-19 | Chain damage is within 1/2 of base times cleared times the chain bonus. |
| Damage.SingleChainDamage | Scripts/Battle/DamageCalculator.cs:5-19 | A chain of at most one gets no multiplier. |
| Damage.NextChainBonus | Scripts/Battle/DamageCalculator.cs:5-19 | Each further chain multiplies the unrounded damage by chainMultiplier. |
| Damage.ChainDamageMonotone | Scripts/Battle/DamageCalculator.cs:5-19 | With non-negative settings, damage is non-negative and grows with the cleared count. |
| Damage.ChainDamageGrowsWithChain | Scripts/Battle/DamageCalculator.cs:5-19 | With a multiplier of at least 1, a longer chain never does less damage. |
| Damage.DefaultChainDamage | Scripts/Battle/DamageCalculator.cs:5-19 | With the defaults, four cells do 40, 60 and 90 at chains 1, 2 and 3. |
| Damage.PerColorBonus | Scripts/Battle/DamageCalculator.cs:30-45 | The bonus is one of 0, 10, 25 and 50, and positive exactly for a count of at least 4. |
| Damage.CalculateColorBonus | Scripts/Battle/DamageCalculator.cs:21-57 | The loop's total is the per-colour bonuses summed plus the variety bonus of the colours used. |
| Damage.ColorBonusNoColors | Scripts/Battle/DamageCalculator.cs:21-57 | An all-zero count array earns no bonus. |
| Damage.ColorBonusBounds | Scripts/Battle/DamageCalculator.cs:21-57 | The bonus is non-negative, at most 50 per entry plus 100 for variety. |
| Damage.PerColorSumByUsed | Scripts/Battle/DamageCalculator.cs:21-57 | Only used colours earn a per-colour bonus, so the sum is at most 50 per used colour. |
| Damage.SpeedBonus | Scripts/Battle/DamageCalculator.cs:59-75 | The bonus is one of 0, 10, 25 and 50; it is 50 exactly within 1 second and 0 exactly beyond 3 seconds. |
| Damage.SpeedBonusNonIncreasing | Scripts/Battle/DamageCalculator.cs:59-75 | A faster chain never earns a smaller speed bonus. |
| Damage.CalculateFullChainDamage | Scripts/Battle/DamageCalculator.cs:77-107 | The result holds the three parts, their sum, and the inputs echoed back. |
| PyBoard.StepsAreAdjacent | src/puzzle/puyo_grid.py:37-47 | The four DIRECTIONS steps reach exactly the four adjacent cells. |
| PyBoard.Filled | src/puzzle/puyo_grid.py:164-181 | The non-empty cells of a column: at most the column's length, with no Empty among them. |
| PyBoard.Gravity | src/puzzle/puyo_grid.py:164-181 | Every column of the board is compacted, and the shape is kept. |
| PyBoard.SettleMove | src/puzzle/puyo_grid.py:172-180 | Reading a puyo with a gap below it moves the puyo down to write_y and keeps the settling invariant. |
| PyBoard.SettleKeep | src/puzzle/puyo_grid.py:172-180 | Reading a puyo that already rests on the stack keeps the settling invariant without a move. |
| PyBoard.SettleSkip | src/puzzle/puyo_grid.py:172-180 | Reading an empty cell keeps the settling invariant. |
| PyBoard.SettleDone | src/puzzle/puyo_grid.py:164-181 | When read_y passes the top, the column is compacted. |
| PyBoard.EmptyInIffShorter | src/puzzle/puyo_grid.py:155-162 | A column holds an empty cell exactly when it has fewer puyos than cells. |
| PyBoard.CompactedKeepsOrder | src/puzzle/puyo_grid.py:164-181 | Gravity keeps the order of a column's puyos. |
| PyBoard.CompactedIdempotent | src/puzzle/puyo_grid.py:164-181 | Gravity applied twice equals gravity once. |
| PyBoard.CompactedPermutes | src/puzzle/puyo_grid.py:164-181 | Gravity permutes a column and neither creates nor destroys puyos. |
| PyBoard.CompactedNoGap | src/puzzle/puyo_grid.py:164-181 | After gravity no puyo floats above an empty cell. |
| PyBoard.MovesZeroIffCompacted | src/puzzle/puyo_grid.py:164-181 | The moved count is zero exactly when gravity leaves the column unchanged. |
| PyBoard.SumMovesOfGravity | src/puzzle/puyo_grid.py:164-181 | On a board gravity has settled, a second gravity reports no moves. |
| PyBoard.GravityIdempotent | src/puzzle/puyo_grid.py:164-181 | Gravity on the whole board is idempotent. |
| PyBoard.FirstFilled | src/puzzle/puyo_grid.py:135-143 | The index of the topmost puyo, with only empty cells above it; the length when there is none. |
| PyBoard.Height | src/puzzle/puyo_grid.py:135-143 | The height is at most the column's length, and 0 exactly when every cell is empty. |
| PyBoard.LowestEmpty | src/puzzle/puyo_grid.py:145-153 | The lowest empty cell, with no empty cell below it; -1 exactly when the column is full. |
| PyBoard.HeightOfSettled | src/puzzle/puyo_grid.py:135-143 | On a settled column the height is the puyo count. |
| PyBoard.LowestEmptyOfSettled | src/puzzle/puyo_grid.py:145-153 | On a settled column with room, the drop cell is directly above the stack. |
| PyBoard.SettledShape | src/puzzle/puyo_grid.py:164-181 | A settled column is its empty cells followed by its puyos. |
| PyBoard.DropKeepsSettled | src/puzzle/puyo_grid.py:155-162 | Dropping into a settled column keeps it settled. |
| PyBoard.LinkedPrepend | src/puzzle/puyo_grid.py:196-216 | One step onto the start of a path gives a longer path. |
| PyBoard.ClosedHoldsLinked | src/puzzle/puyo_grid.py:196-216 | A set that holds p and is closed under same-kind neighbours holds every cell linked to p. |
| PyBoard.ClosedLinkedIsComponent | src/puzzle/puyo_grid.py:183-216 | A set of cells linked to p that holds p and is closed under same-kind neighbours is exactly p's component. |
| PyBoard.SameComponent | src/puzzle/puyo_grid.py:183-216 | Any member of a group has the same group. |
| PyBoard.GroupsEqualOrDisjoint | src/puzzle/puyo_grid.py:183-216 | Two groups either coincide or share no cell. |
| PyBoard.GroupOfMember | src/puzzle/puyo_grid.py:183-216 | A matchable start lies in its own group, and every member has that group. |
| PyChains.ChainScoreClosedForm | src/puzzle/puyo_grid.py:254-264 | The older score of n puyos is 12(1 + n) for the rare colours and 10(1 + n) otherwise. |
| PyChains.AuthenticProduct | src/puzzle/puyo_grid.py:266-281 | The product in the authentic formula is 2 n (n + 1) times the colour bonus. |
| PyChains.AuthenticScoreClosedForm | src/puzzle/puyo_grid.py:266-281 | For ordinary colours the authentic score is max(2 n (n + 1), 40). |
| PyChains.AuthenticScoreExamples | src/puzzle/puyo_grid.py:266-281 | Four, five and six puyos score 40, 60 and 84; rare colours score 44, 66 and 92. |
| PyChains.AuthenticScoreByProduct | src/puzzle/puyo_grid.py:266-281 | The score is the truncated product, floored at 40. |
| PyChains.AuthenticScoreMonotone | src/puzzle/puyo_grid.py:266-281 | A bigger group never scores less. |
| PyChains.AuthenticScoreAtLeast40 | src/puzzle/puyo_grid.py:266-281 | No group scores below 40. |
| PyChains.ChainMultiplierAtLeastOne | src/puzzle/puyo_grid.py:590-612 | No chain level multiplies by less than one. |
| PyChains.ChainMultiplierMonotone | src/puzzle/puyo_grid.py:590-612 | A deeper level never has a smaller multiplier. |
| PyChains.MultiplierTableSorted | src/puzzle/puyo_grid.py:590-612 | The table starts at 1.0, never decreases and ends at 28.0, where the linear part continues it. |
| PyChains.LevelScoreLowerBound | src/puzzle/puyo_grid.py:614-633 | A level scores at least 40 per group. |
| PyChains.ScanSkip | src/puzzle/puyo_grid.py:228-233 | A visited cell, or a cell that forms no group, is passed over with the scan invariant kept. |
| PyChains.FreshGroup | src/puzzle/puyo_grid.py:235-237 | The group of an unvisited start shares no cell with the visited cells and holds the start. |
| PyChains.VisitGroup | src/puzzle/puyo_grid.py:235-237 | Marking an unvisited start's group visited keeps visited a union of whole groups. |
| PyChains.ScanAddSmall | src/puzzle/puyo_grid.py:236-240 | A start whose group is too small only marks the group visited. |
| PyChains.AddRecord | src/puzzle/puyo_grid.py:240-250 | A record of a new group, disjoint from the visited cells, joins the records. |
| PyChains.AddStart | src/puzzle/puyo_grid.py:240-250 | A new start after the earlier ones keeps the records in scan order. |
| PyChains.ScanAddChain | src/puzzle/puyo_grid.py:240-250 | A start whose group is big enough adds a record for its group with the authentic score. |
| PyChains.ScanNextRow | src/puzzle/puyo_grid.py:224-226 | The end of one row is the start of the next. |
| PyChains.ScanDone | src/puzzle/puyo_grid.py:218-252 | After the last row the records are what find_all_chains promises. |
| PyChains.ChainsCoverPoppable | src/puzzle/puyo_grid.py:218-252 | The records together eliminate exactly the cells of the big groups. |
| PyChains.NoChainsIffStable | src/puzzle/puyo_grid.py:218-252 | No record is returned exactly when no group reaches MIN_CHAIN_LENGTH. |
| PyChains.ChainIsGroupOfEachMember | src/puzzle/puyo_grid.py:218-252 | Every record is a whole group of at least MIN_CHAIN_LENGTH puyos of one kind, and is the group of each of its cells. |
| PyLevels.ClearCells | src/puzzle/puyo_grid.py:302-348 | Every listed on-board cell is emptied and every other cell is kept. |
| PyLevels.ClearOneMore | src/puzzle/puyo_grid.py:302-348 | Emptying one more cell is a set_puyo of Empty there. |
| PyLevels.ClearTwice | src/puzzle/puyo_grid.py:392-423 | Emptying a set in two parts is emptying their union. |
| PyLevels.OccupiedAfterClear | src/puzzle/puyo_grid.py:392-423 | Cells outside the emptied set keep their puyos. |
| PyLevels.StoneCountOfGravity | src/puzzle/puyo_grid.py:164-181 | Gravity keeps the number of puyos on the board. |
| PyLevels.StonesCount | src/puzzle/puyo_grid.py:302-348 | The set of occupied cells has as many elements as the column-by-column count. |
| PyLevels.StoneCountOfClear | src/puzzle/puyo_grid.py:302-348 | Emptying cells removes exactly the puyos that were in them. |
| PyLevels.PoppableOccupied | src/puzzle/puyo_grid.py:218-252 | Every cell of a big group holds a puyo. |
| PyLevels.LevelAsWrittenConserves | src/puzzle/puyo_grid.py:448-466 | A level as written removes exactly the puyos it counts, scores the sum of its records, and leaves a settled board. |
| PyLevels.LevelCorrectedRemovesPoppable | src/puzzle/puyo_grid.py:392-423 | The intended level removes every puyo of every big group once, and leaves the settled rest. |
| PyLevels.CorrectedLevelOf | src/puzzle/puyo_grid.py:392-423 | Emptying every record's cells and applying gravity once gives the intended level, its count and its recorded cells. |
| PyLevels.LevelsAgreeOnOneGroup | src/puzzle/puyo_grid.py:452-466 | With a single record, the level as written and the intended level agree. |
| PyLevels.Coords | src/puzzle/puyo_grid.py:283-286 | The recorded pairs are exactly the (x, y) of the positions. |
| PyLevels.EliminatedAtLeastFirst | src/puzzle/puyo_grid.py:452-466 | A level as written empties at least the cells of its first record. |
| PyLevels.LevelAsWrittenProgress | src/puzzle/puyo_grid.py:437-475 | A level with a record removes at least MIN_CHAIN_LENGTH puyos, so the sequence ends. |
| PyLevels.RecordScoresAtLeast40 | src/puzzle/puyo_grid.py:218-252 | Every record is worth at least 40 points. |
| PyLevels.LevelBonusAtLeastBase | src/puzzle/puyo_grid.py:468-471 | A level bonus is never below the level's base score. |
| PyLevels.CascadeExtend | src/puzzle/puyo_grid.py:437-475 | One more level adds its scaled score, its eliminated puyos and its cells to the run's totals. |
| PyLevels.CascadeConserves | src/puzzle/puyo_grid.py:425-485 | The puyos a run counts as eliminated are exactly the puyos that left the board. |
| PyLevels.CascadeBounded | src/puzzle/puyo_grid.py:425-485 | A run has at most (puyos removed) / MIN_CHAIN_LENGTH levels. |
| PyLevels.CascadeScoreAtLeast | src/puzzle/puyo_grid.py:425-485 | Every level is worth at least 40 points. |
| PyLevels.CascadeEmptyIff | src/puzzle/puyo_grid.py:425-485 | A run has no level exactly when its first board has no big group. |
| PyLevels.CascadeSettled | src/puzzle/puyo_grid.py:425-485 | A run that starts settled ends on a settled board of the same width. |
| PyLevels.StaleChains | src/puzzle/puyo_grid.py:218-252 | On the witness board find_all_chains can only return the red record, then the blue one. |
| PyLevels.StaleLevelLosesPuyos | src/puzzle/puyo_grid.py:452-466 | On the witness board of 11 puyos in two groups, the level as written counts 10 and leaves a puyo. The intended level removes all 11. |
| PyRules.TopRowCount | src/puzzle/puyo_grid.py:663-666 | The count of top-row puyos among the first n columns is at most n. |
| PyRules.BlockedAmong | src/puzzle/puyo_grid.py:674-678 | The count of blocked listed columns is at most the number of listed columns. |
| PyRules.CenterRuleRedundant | src/puzzle/puyo_grid.py:639-685 | The centre-column rule never decides: the test equals the spawn rules or the half-top-row rule. |
| PyRules.BlankGameOver | src/puzzle/puyo_grid.py:639-685 | An empty board is over exactly when it has fewer than two columns or two rows. |
| PyRules.GameOverMonotone | src/puzzle/puyo_grid.py:639-685 | Adding puyos never undoes a game over. |
| PyRules.FirstBadColumn | src/puzzle/puyo_grid.py:697-700 | The first column of the wrong height, or the length when every column fits. |
| PyRules.LoadCheckedSpec | src/puzzle/puyo_grid.py:691-706 | The intended load accepts exactly data of the board's size and copies it; a rejection changes nothing. |
| PyRules.LoadAgreesWhenAccepted | src/puzzle/puyo_grid.py:691-706 | Both readings accept the same data, and they agree when it is accepted or has the wrong width. |
| PyRules.LoadCopyRoundTrip | src/puzzle/puyo_grid.py:687-706 | Loading a copy of the board succeeds and gives the same board. |
| PyRules.LoadPartialOnReject | src/puzzle/puyo_grid.py:691-706 | As written, load_grid can return False with the board already changed. |
| PyGrid.PuyoGrid.constructor | src/puzzle/puyo_grid.py:60-96 | A GRID_WIDTH x GRID_HEIGHT grid of empty cells with no chain history. |
| PyGrid.PuyoGrid.Clear | src/puzzle/puyo_grid.py:98-107 | Every cell is emptied and the chain history is reset. |
| PyGrid.PuyoGrid.IsValidPosition | src/puzzle/puyo_grid.py:109-111 | True exactly on the board. |
| PyGrid.PuyoGrid.GetPuyo | src/puzzle/puyo_grid.py:113-117 | The cell's puyo, or Empty off the board. |
| PyGrid.PuyoGrid.SetPuyo | src/puzzle/puyo_grid.py:119-125 | Succeeds exactly on the board and writes that cell only. |
| PyGrid.PuyoGrid.CanPlacePuyo | src/puzzle/puyo_grid.py:131-133 | True exactly for an empty cell on the board. |
| PyGrid.PuyoGrid.GetColumnHeight | src/puzzle/puyo_grid.py:135-143 | The column's height, or 0 off the board. |
| PyGrid.PuyoGrid.GetDropPosition | src/puzzle/puyo_grid.py:145-153 | The lowest empty cell, or -1 for a full or off-board column. |
| PyGrid.PuyoGrid.DropPuyo | src/puzzle/puyo_grid.py:155-162 | Succeeds exactly when the column is on the board and has room, then fills its lowest empty cell; otherwise nothing changes. |
| PyGrid.PuyoGrid.ApplyGravity | src/puzzle/puyo_grid.py:164-181 | The board becomes its gravity image, and the result counts the puyos that moved. |
| PyGrid.PuyoGrid.SettleColumn | src/puzzle/puyo_grid.py:168-180 | Column x becomes compacted, the other columns are kept, and the moves are counted. |
| PyGrid.PuyoGrid.FindConnectedPuyos | src/puzzle/puyo_grid.py:183-194 | The result is the start's group; it is empty off the board, on Empty or on Garbage. |
| PyGrid.PuyoGrid.Dfs | src/puzzle/puyo_grid.py:196-216 | The visited set grows with same-kind cells linked to pos, and the new cells are closed under same-kind neighbours. |
| PyGrid.PuyoGrid.FindAllChains | src/puzzle/puyo_grid.py:218-252 | The records are whole disjoint big groups in scan order, scored by the authentic formula, covering every big group. |
| PyGrid.PuyoGrid.RecordChainPositions | src/puzzle/puyo_grid.py:283-286 | The record gains the (x, y) of every position, and nothing else changes. |
| PyGrid.PuyoGrid.GetLastChainPositions | src/puzzle/puyo_grid.py:288-300 | The result lists the recorded positions once each, and the record is emptied. |
| PyGrid.PuyoGrid.EliminatePuyos | src/puzzle/puyo_grid.py:302-348 | Every listed cell is emptied, and the result counts those that held a puyo. |
| PyGrid.PuyoGrid.ChainLevelScore | src/puzzle/puyo_grid.py:614-633 | The result is the level score of the records at the level. |
| PyGrid.PuyoGrid.EliminateGroups | src/puzzle/puyo_grid.py:405-414 | Every record's cells are emptied and recorded, and the scores and emptied cells are summed. |
| PyGrid.PuyoGrid.ExecuteChainElimination | src/puzzle/puyo_grid.py:392-423 | With no group nothing changes. Otherwise every big group is removed once, gravity settles the board, and totals and history are updated. |
| PyGrid.PuyoGrid.EliminateAndSettle | src/puzzle/puyo_grid.py:399-423 | The board becomes gravity of the cleared board, and the statistics are updated. |
| PyGrid.PuyoGrid.EliminateLevel | src/puzzle/puyo_grid.py:452-466 | The board and count are those of the level as written. |
| PyGrid.PuyoGrid.EliminateGroupAndSettle | src/puzzle/puyo_grid.py:455-464 | One group is recorded and emptied, then gravity is applied. |
| PyGrid.PuyoGrid.RunLevel | src/puzzle/puyo_grid.py:437-475 | No groups means no change and a stable board. Otherwise the level runs as written, removes at least MIN_CHAIN_LENGTH puyos, and earns its scaled bonus. |
| PyGrid.PuyoGrid.ExecuteFullChainSequence | src/puzzle/puyo_grid.py:425-485 | The run starts from gravity of the old board and ends stable, with the cascade's score, count and history. |
| PyGrid.PuyoGrid.RunCascade | src/puzzle/puyo_grid.py:437-475 | The levels form a cascade from the current board that ends with nothing poppable. The count is the number of levels, the score and eliminated totals are the cascade's, and the history holds every position. |
| PyGrid.PuyoGrid.IsAuthenticGameOver | src/puzzle/puyo_grid.py:639-685 | The result is the authentic game-over test of the board. |
| PyGrid.PuyoGrid.IsGameOver | src/puzzle/puyo_grid.py:635-637 | The result is the authentic game-over test. |
| PyGrid.PuyoGrid.GetGridCopy | src/puzzle/puyo_grid.py:687-689 | The copy equals the board. |
| PyGrid.PuyoGrid.LoadGrid | src/puzzle/puyo_grid.py:691-706 | The result and the new board are those of load_grid as written. |
| PyFalling.PairCellsAdjacent | src/puzzle/falling_system.py:34-49 | The main cell is (x, y) and the sub cell is one of its four neighbours. |
| PyFalling.TurnedRotation | src/puzzle/falling_system.py:335 | A turn either way gives a rotation in [0, 4). |
| PyFalling.RotationDirection.Value | src/puzzle/falling_system.py:19-25 | A direction is +1 or -1. |
| PyFalling.TurnMovesSubCell | src/puzzle/falling_system.py:34-49 | A clockwise turn moves the sub cell a quarter turn round the main cell; a counter-clockwise turn undoes it. |
| PyFalling.PlacedCells | src/puzzle/falling_system.py:75-84 | A placed pair writes exactly its two cells with their colours and keeps the shape. |
| PyFalling.FitsNeedsRoomAbove | src/puzzle/falling_system.py:51-56 | With rotation 0 no pair fits in row 0. |
| PyFalling.FirstFitting | src/puzzle/falling_system.py:343-355 | A found kick position is one where the turned pair fits. |
| PyFalling.RotationTarget | src/puzzle/falling_system.py:330-357 | A found landing spot of a turn is one where the pair fits. |
| PyFalling.FirstFittingPicksFirst | src/puzzle/falling_system.py:343-355 | The search picks offset i exactly when it fits and no earlier one does, and gives None exactly when none fits. |
| PyFalling.NothingEliminatedIffNoLevel | src/puzzle/falling_system.py:241-261 | A run eliminates at least MIN_CHAIN_LENGTH per level, so its count is zero exactly when it has no level. |
| PyFalling.FallingPuyo.constructor | src/puzzle/falling_system.py:26-32 | A pair of the given colours at the given position and rotation. |
| PyFalling.FallingPuyo.CanPlace | src/puzzle/falling_system.py:51-56 | True exactly when both cells are on the board and empty. |
| PyFalling.FallingPuyo.CanMoveTo | src/puzzle/falling_system.py:58-73 | The pair's fields are restored, and the answer is whether it fits at the new position and rotation. |
| PyFalling.FallingPuyo.PlaceOnGrid | src/puzzle/falling_system.py:75-84 | Succeeds exactly when the pair fits, then writes its two cells; otherwise nothing changes. |
| PyFalling.FallingSystem.constructor | src/puzzle/falling_system.py:90-124 | After the first spawn, the first pair is at the spawn column top, the second waits, and the totals are zero. |
| PyFalling.FallingSystem.TryMoveDown | src/puzzle/falling_system.py:231-239 | The pair moves one row down exactly when it fits there. |
| PyFalling.FallingSystem.TryMoveHorizontal | src/puzzle/falling_system.py:312-328 | The pair moves a column exactly when it fits there. A locked pair that then can fall falls one row and is unlocked. |
| PyFalling.FallingSystem.TryRotate | src/puzzle/falling_system.py:330-357 | The turn is committed at the first of in place and the kicks where it fits; otherwise nothing changes. |
| PyFalling.FallingSystem.TryKicks | src/puzzle/falling_system.py:343-355 | The kick loop commits the first fitting offset, or changes nothing. |
| PyFalling.FallingSystem.SpawnNextPuyo | src/puzzle/falling_system.py:146-180 | The waiting pair, with its colours, or a new one from the first colours when none waits, moves to the spawn cell with rotation 0. A new pair of the second colours waits. Once initialised, a pair that does not fit ends the game; otherwise the lock state is reset. |
| PyFalling.FallingSystem.RunChains | src/puzzle/falling_system.py:251-255 | The chains run to a stable board, and their score and count are added to the totals. |
| PyFalling.FallingSystem.LockCurrentPuyo | src/puzzle/falling_system.py:241-261 | A fitting pair is placed, chains resolve and the totals grow. Then the waiting pair (or a new one of the first colours) becomes current at the spawn cell, a new pair of the second colours waits, and the lock state is reset unless the spawn is blocked, which ends the game. A pair that does not fit ends the game and nothing else changes. |
| PyFalling.FallingSystem.DropToFloor | src/puzzle/falling_system.py:364-367 | The pair falls while it fits one row lower and stops where it cannot. |
| PyFalling.FallingSystem.HardDrop | src/puzzle/falling_system.py:359-372 | The pair drops to where it can fall no further; if it moved, it is locked there and the chains resolve. |
| PyFalling.SpawnNeverFits | src/puzzle/falling_system.py:146-180 | As written, a spawned pair never fits. |
| PyFalling.CorrectedSpawnFits | src/puzzle/falling_system.py:146-180 | With the main cell in row 1, a pair fits exactly when the spawn rules of the game-over test do not fire. |
| HitPoints.Healed | src/core/player_data.py:125-131 | The result is at most maxHp and at most hp + amount, and it equals one of them: the smaller of the two. |
| HitPoints.Damaged | src/core/player_data.py:143-156 | The result is non-negative, and is hp - damage or 0. |
| HitPoints.HealedTwice | src/core/player_data.py:125-131 | Two heals equal one heal of the sum. |
| HitPoints.HealedAtFull | src/core/player_data.py:125-131 | At full hp a heal changes nothing. |
| HitPoints.DamagedTwice | src/core/player_data.py:143-156 | Two hits equal one hit of the sum. |
| HitPoints.DamagedKills | src/core/player_data.py:143-156 | The hp reaches 0 exactly when the damage is at least the hp. |
| GameRarity.Value | src/core/constants.py:119-124 | Common is 1 up to Legendary 5. |
| GameRarity.ValueInjective | src/core/constants.py:119-124 | Distinct grades have distinct values. |
| PyPlayer.WinRate | src/core/player_data.py:44-48 | 0 with no battles; otherwise rate times battles equals won times 100. |
| PyPlayer.WinRateIsPercentage | src/core/player_data.py:44-48 | The rate is in [0, 100], and is 100 exactly when every battle was won. |
| PyPlayer.CombatRecorded | src/core/player_data.py:267-279 | One more battle, one more win or loss, and the highest chain as a running maximum. |
| PyPlayer.DeathRecorded | src/core/player_data.py:150-156 | One more loss, and the battle and win counts are kept. |
| PyPlayer.CombatKeepsBalance | src/core/player_data.py:143-156 | Recording a battle keeps wins + losses equal to battles; a death from take_damage breaks that balance. |
| PyPlayer.HighestChainIsRunningMax | src/core/player_data.py:267-279 | After many battles the highest chain is the maximum of the start and every battle's chains. |
| PyPlayer.PlayerData.constructor | src/core/player_data.py:89-123 | Full hp, 50 gold, chain count 1, no statistics. |
| PyPlayer.PlayerData.Heal | src/core/player_data.py:125-131 | hp is healed with the cap, and the result is the hp gained. |
| PyPlayer.PlayerData.SetChainCount | src/core/player_data.py:133-136 | The count is set, but never below 1. |
| PyPlayer.PlayerData.ResetChainCount | src/core/player_data.py:138-141 | The count becomes 1. |
| PyPlayer.PlayerData.TakeDamage | src/core/player_data.py:143-156 | hp drops without going negative. The result is false, and a loss is counted, exactly when hp reaches 0. |
| PyPlayer.PlayerData.SpendGold | src/core/player_data.py:158-165 | Succeeds exactly with enough gold, then deducts it and counts it as spent; otherwise nothing changes. |
| PyPlayer.PlayerData.UpdateCombatStats | src/core/player_data.py:267-279 | The statistics are CombatRecorded of the old ones, and nothing else changes. |
| PyInventory.BaseValue | src/inventory/player_inventory.py:39-49 | A rarity's unit value lies between 10 and 250. |
| PyInventory.RarerIsWorthMore | src/inventory/player_inventory.py:39-49 | A rarer item is worth strictly more per unit. |
| PyInventory.IndexOf | src/inventory/player_inventory.py:71-111 | The first index holding the id, or None when no entry has it. |
| PyInventory.AddedKeepsWellFormed | src/inventory/player_inventory.py:71-84 | add_item keeps the ids unique and the list within MAX_ITEMS. |
| PyInventory.AddedStacksOrAppends | src/inventory/player_inventory.py:71-84 | A held id is stacked. A new id is appended, or refused when the list is full. |
| PyInventory.AddedQuantity | src/inventory/player_inventory.py:71-84 | The id's quantity rises by the item's quantity, or nothing changes. |
| PyInventory.AddedTotalValue | src/inventory/player_inventory.py:71-84 | The total value rises by the added units at the entry's rarity. |
| PyInventory.RemovedKeepsWellFormed | src/inventory/player_inventory.py:86-97 | remove_item keeps the ids unique and adds no entry. |
| PyInventory.RemovedSucceedsIffEnough | src/inventory/player_inventory.py:86-97 | Succeeds exactly when the entry holds at least the quantity; a failure changes nothing. |
| PyInventory.RemovedQuantity | src/inventory/player_inventory.py:86-97 | The id's quantity falls by exactly the quantity, and other ids are kept. |
| PyInventory.RemovedTotalValue | src/inventory/player_inventory.py:86-97 | The total value falls by the removed units at the entry's rarity. |
| PyInventory.AddThenRemove | src/inventory/player_inventory.py:71-97 | Adding and then removing as many units gives the quantities back. |
| PyInventory.CreateItem | src/inventory/player_inventory.py:182-196 | A copy of the predefined item with the requested quantity, or None for an unknown id. |
| PyInventory.PredefinedConsistent | src/inventory/player_inventory.py:182-196 | Each predefined item has its own id, and only potions are consumable. |
| PyInventory.PlayerInventory.constructor | src/inventory/player_inventory.py:52-69 | A new inventory holds two small health potions and a lucky coin. |
| PyInventory.PlayerInventory.AddItem | src/inventory/player_inventory.py:71-84 | The scan loop's result and new list are those of Added. |
| PyInventory.PlayerInventory.RemoveItem | src/inventory/player_inventory.py:86-97 | The scan loop's result and new list are those of Removed. |
| PyInventory.PlayerInventory.HasItem | src/inventory/player_inventory.py:99-104 | True exactly when some entry has the id and enough units. |
| PyInventory.PlayerInventory.GetItem | src/inventory/player_inventory.py:106-111 | The first entry with the id, or None. |
| PyInventory.PlayerInventory.UseConsumable | src/inventory/player_inventory.py:139-180 | A held consumable loses one unit, and the item is returned; otherwise None and no change. |
| PyInventory.HasItemIsFirstEntry | src/inventory/player_inventory.py:99-111 | With unique ids, has_item asks about the id's one entry. |
| PyInventory.UseConsumableTakesOne | src/inventory/player_inventory.py:139-180 | use_consumable takes one unit of the id and nothing else. |
| PyDungeon.SlicePrefix | src/dungeon/dungeon_map.py:480-498 | positions[:count] with Python slicing; a negative count drops from the end. |
| PyDungeon.XPositionsTable | src/dungeon/dungeon_map.py:480-498 | The table gives count positions, strictly increasing, in 0 .. 6. |
| PyDungeon.XPositionsSymmetric | src/dungeon/dungeon_map.py:480-498 | The table positions are mirror images about column 3. |
| PyDungeon.XPositionsShuffled | src/dungeon/dungeon_map.py:480-498 | Beyond six nodes the positions are exactly the shuffle of range(7): seven positions, in pairwise distinct columns. |
| PyDungeon.CanPlaceSpecialIff | src/dungeon/dungeon_map.py:234-254 | Refused exactly for a gap of one floor, or of two floors within two columns. |
| PyDungeon.Renamed | src/dungeon/dungeon_map.py:430-436 | Each occurrence of the old id is replaced by the new id, and the length is kept. |
| PyDungeon.RenamedRemovesOld | src/dungeon/dungeon_map.py:430-436 | No connection names the old id afterwards, and the new id is present exactly when it or the old id was before. |
| PyDungeon.ConvertedToEliteSpec | src/dungeon/dungeon_map.py:416-438 | Only battle nodes convert, and no connection points to the old id. |
| PyDungeon.GeneratedBattleIdChanges | src/dungeon/dungeon_map.py:416-438 | A generated battle id differs from its elite id. |
| PyDungeon.RefreshedAvailability | src/dungeon/dungeon_map.py:719-745 | A node is available exactly when it is an unvisited connection of the current node, and only its available flag changes. |
| PyDungeon.RefreshedIdempotent | src/dungeon/dungeon_map.py:719-745 | Refreshing twice equals refreshing once. |
| PyDungeon.DungeonMap.constructor | src/dungeon/dungeon_map.py:53-68 | Only floor-0 nodes are available, and none is visited. |
| PyDungeon.DungeonMap.UpdateAvailableNodes | src/dungeon/dungeon_map.py:719-745 | The node map becomes Refreshed of the old one. |
| PyDungeon.DungeonMap.ClearAvailable | src/dungeon/dungeon_map.py:721-723 | Every node becomes unavailable and nothing else changes. |
| PyDungeon.DungeonMap.MarkConnections | src/dungeon/dungeon_map.py:730-739 | A node becomes available when it was, or when it is among the connections and unvisited; nothing else changes. |
| PyDungeon.DungeonMap.SelectNode | src/dungeon/dungeon_map.py:686-717 | An unknown or unavailable unvisited node is refused. A visited one is accepted unchanged. An available one becomes current and visited, and the map is refreshed. |
| PyDungeon.DungeonMap.ConvertBattleToElite | src/dungeon/dungeon_map.py:416-438 | The nodes become ConvertedToElite of the old nodes. |
| PyEnemy.Trunc | src/battle/enemy.py:499-526 | int(x) truncates toward zero. |
| PyEnemy.FinalDamageBounds | src/battle/enemy.py:499-526 | The final damage is in [0, damage]; guarding halves it; no guard or buff leaves it whole. |
| PyEnemy.Enemy.constructor | src/battle/enemy.py:61-107 | Alive at full hp, not stunned, not guarding, no buffs. |
| PyEnemy.Enemy.TakeDamage | src/battle/enemy.py:499-526 | A defeated enemy takes nothing. Otherwise hp drops by the final damage, not below 0, and the enemy dies exactly at 0. |
| PyEnemy.Enemy.ApplyStun | src/battle/enemy.py:528-532 | Stunned for the longer of the remaining and the new duration. |
| PyEnemy.Enemy.ApplyBuff | src/battle/enemy.py:534-537 | The buff of that type is replaced. |
| PyEnemy.Enemy.Heal | src/battle/enemy.py:544-554 | A living enemy heals up to max hp; a defeated one does not. |
| PyEnemy.NextIndex | src/battle/enemy.py:764-767 | One further with wrap-around, in range, with more than one alive. |
| PyEnemy.PreviousIndex | src/battle/enemy.py:769-772 | One back with wrap-around, in range, with more than one alive. |
| PyEnemy.NextPreviousInverse | src/battle/enemy.py:764-772 | Next then previous, or previous then next, returns to the index. |
| PyEnemy.NextIndexInRange | src/battle/enemy.py:764-767 | Inside the range, the next index is one further, wrapping to 0 after the last. |
| PyEnemy.PreviousIndexInRange | src/battle/enemy.py:769-772 | Inside the range, the previous index is one back, wrapping to the last before 0. |
| PyEnemy.StepForwardCycles | src/battle/enemy.py:764-767 | k steps from 0 reach k mod n, so targets cycle in order. |
| PyEnemy.AliveOf | src/battle/enemy.py:739-756 | The list is no longer than the group, and its members are exactly the living enemies of the group. |
| PyEnemy.EnemyGroup.constructor | src/battle/enemy.py:732-737 | Every enemy counted as alive, and the first one targeted. |
| PyEnemy.EnemyGroup.RefreshTargets | src/battle/enemy.py:739-756 | The living enemies are recounted and an index past the end resets to 0. |
| PyEnemy.EnemyGroup.SelectedTarget | src/battle/enemy.py:758-762 | The targeted living enemy, or None when the index is out of range. |
| PyEnemy.EnemyGroup.SelectNextTarget | src/battle/enemy.py:764-767 | The index becomes NextIndex. |
| PyEnemy.EnemyGroup.SelectPreviousTarget | src/battle/enemy.py:769-772 | The index becomes PreviousIndex. |
| PyEnemy.RefreshedTargetExists | src/battle/enemy.py:739-762 | After a refresh there is a target exactly when some enemy is alive, and it is a living enemy. |
| PyPotions.RarityMultiplier | src/items/potions.py:111-117 | The multiplier is in [1.0, 2.5]. |
| PyPotions.RarityMultiplierMonotone | src/items/potions.py:108-189 | A higher grade never has a smaller multiplier. |
| PyPotions.EffectGrowsWithRarity | src/items/potions.py:108-189 | Every effect is positive, its kind and duration depend on the type only, and it never weakens with rarity. |
| PyPotions.Potion.constructor | src/items/potions.py:44-56 | A new unused potion with its table effect. |
| PyPotions.Potion.Use | src/items/potions.py:229-244 | The first use yields the effect; later uses yield None. The potion ends used. |
| PyPotions.Popped | src/items/potions.py:270-289 | The list without its i-th element, the rest in order. |
| PyPotions.PoppedIsPermutation | src/items/potions.py:270-289 | Popping loses exactly the popped element. |
| PyPotions.PotionInventory.constructor | src/items/potions.py:254-258 | An empty inventory with the given capacity. |
| PyPotions.PotionInventory.AddPotion | src/items/potions.py:260-268 | Refused when full; otherwise appended. |
| PyPotions.PotionInventory.UsePotion | src/items/potions.py:270-281 | For a valid index the potion is used, and popped only when it yields an effect. An invalid index changes nothing. |
| PyPotions.PotionInventory.RemovePotion | src/items/potions.py:283-289 | A valid index pops the potion; otherwise nothing changes. |
| PyArtifacts.RarityMultiplier | src/items/artifacts.py:137-142 | The multiplier is in [1.0, 2.5]. |
| PyArtifacts.MaxChargesTable | src/items/artifacts.py:285-292 | Exactly the phoenix feather and curse shield are charged. The shield has 2 + rarity charges, more than its debuff count. |
| PyArtifacts.Firing | src/items/artifacts.py:342-369 | The effects that fire on the trigger, in order. |
| PyArtifacts.TriggeredSpendsCharges | src/items/artifacts.py:342-369 | Uncharged artifacts yield every firing effect. Charged ones yield the firing effects up to their charges, spend that many, and go inactive when they run out. |
| PyArtifacts.PassiveIgnoresTrigger | src/items/artifacts.py:342-369 | When every effect is passive, every trigger fires all of them. |
| PyArtifacts.Artifact.constructor | src/items/artifacts.py:56-74 | Table effects, full charges, active and not equipped. |
| PyArtifacts.Artifact.TriggerEffect | src/items/artifacts.py:342-369 | An inactive artifact yields nothing. An active one produces and spends as Triggered says. |
| PyArtifacts.IndexOfType | src/items/artifacts.py:430-435 | The index of the first artifact of the type. |
| PyArtifacts.IndexOf | src/items/artifacts.py:421-428 | The index of the first occurrence of the object. |
| PyArtifacts.Removed | src/items/artifacts.py:421-428 | list.remove: the first occurrence dropped, the multiset reduced by one, or the list unchanged when absent. |
| PyArtifacts.FirstOfTypeIsFirstOccurrence | src/items/artifacts.py:398-419 | The first artifact of a type is the first occurrence of that object. |
| PyArtifacts.PoppedKeepsUnique | src/items/artifacts.py:398-428 | Dropping one artifact keeps the types unique. |
| PyArtifacts.AppendKeepsUnique | src/items/artifacts.py:398-419 | Appending a new type keeps the types unique. |
| PyArtifacts.BonusesAreSums | src/items/artifacts.py:451-463 | The bonus keys are exactly the passive effect types, and each value sums those effects. |
| PyArtifacts.NoPassiveSumsToZero | src/items/artifacts.py:451-463 | A type with no passive effect sums to 0. |
| PyArtifacts.ArtifactCollection.constructor | src/items/artifacts.py:392-396 | An empty collection with the given capacity. |
| PyArtifacts.ArtifactCollection.FindByType | src/items/artifacts.py:430-435 | The first artifact of the type, or None. |
| PyArtifacts.ArtifactCollection.AddArtifact | src/items/artifacts.py:398-419 | A full collection refuses. A held type is upgraded only by a strictly rarer artifact, which moves to the end. A new type is appended and equipped. |
| PyArtifacts.ArtifactCollection.RemoveArtifact | src/items/artifacts.py:421-428 | A held artifact is removed and unequipped; an absent one is refused. |
| PyArtifacts.ArtifactCollection.GetPassiveBonuses | src/items/artifacts.py:451-463 | The result is Bonuses of the active artifacts' effects. |
| PyArtifacts.AddPassiveEffects | src/items/artifacts.py:456-461 | Adding one artifact's effects to the bonuses of the earlier effects gives the bonuses of all of them. |

## Left out

- Floating point: every `float` in the source is an exact `real`. `int()` and Unity's rounding are written out where the source truncates or rounds.
- Time: timers, frame updates and coroutine delays become parameters or are left out. This covers `update`, `_handle_falling`, `_handle_locking`, `update_animations`, `start_animated_chain_sequence`, `update_chain_animation` and the chain delays of `ProcessChains`.
- Input: keyboard handling (`handle_input` and its helpers, `HandleInput`) is left out; the moves it calls are modelled.
- Randomness: the puyo bag, random colours, random potions, artifacts and enemies, and the map generator's random choices are left out. A shuffle or a pair of colours becomes a parameter.
- Rendering, fonts, sound, logging, names, descriptions, colours and icons are left out.
- `Start` of the C# manager is left out. It is a Unity lifecycle hook that only calls `SpawnNextPuyo` when the game is active, and that method is modelled.
- Unity object lifetime is left out: Instantiate, Destroy and the prefab are not modelled, and neither are the visual positions of cells.
- `reset` of the falling system, `get_items_by_type`, `get_artifact_effects`, `get_potion_count`, `get_potions`, `get_artifact_count`, `get_active_artifacts` and `trigger_effects` are left out; they are plain filters or loops over what is modelled.
- Map generation is not modelled beyond the pieces named in the table: `generate_map`, the floor and connection generators, elite routing and the reachability checks.
- Enemy stat tables, the AI action patterns, `update`, `execute_action` and debuffs are left out.
- The player's skills, buffs, special puyos and their rates, artifact effects, `gain_gold`, `visit_room`, `advance_floor` and save/load are left out.
- FallingPair.FallingPuyo.LandPuyo: the pair's two records are values. In the C# code the landed records are the same objects as the board cells, so the manager's later gravity moves (PuzzleManager.cs:172) also rewrite their positions; the model's records keep the positions they had at landing.
- Aliasing of items is left out. Inventory entries are values, so `use_consumable`'s returned item is a copy. Other objects that share an item are not modelled.
- PyArtifacts.ArtifactCollection.AddArtifact: an upgrade does not mark the new artifact equipped. This follows the code as written; the flag is never read in the source.
- PyPlayer.PlayerData.TakeDamage counts a loss without a battle, so the balance of wins and losses against battles fought breaks (PyPlayer.CombatKeepsBalance). This is the code as written.
- PyArtifacts.MaxChargesTable: the curse shield's charges (2 + rarity) are more than its announced debuff count. This is the code as written.
- The C# damage calculator takes the chain, colour and speed data as parameters. The battle code that supplies them is not part of this model.

## Findings

| source | as written | input that shows it | evidently intended | confidence | as-written member | corrected member |
|---|---|---|---|---|---|---|
| legacy/Scripts/Battle/PuzzleManager.cs:58-64 | IsGameOver also tests the cell one row above the spawn cell. That cell is row Height, off the board, so IsPositionEmpty is false and the test is always true | any board, e.g. an empty 6 x 12 board | the game is over only when the spawn cell is off the board or taken | not executed | PuzzleChains.PuzzleManager.IsGameOverAlwaysTrue | PuzzleChains.PuzzleManager.IsGameOverCorrected |
| src/puzzle/puyo_grid.py:452-466 | each record of a level empties the cells it recorded at the start of the level. Gravity has already run after the earlier records, so those cells can be stale | a two-column board where a red group of 7 holds up a blue group of 4 (PyLevels.StaleChains) | every recorded group is removed once, then gravity runs, as execute_chain_elimination does | not executed | PyLevels.StaleLevelLosesPuyos | PyLevels.LevelCorrectedRemovesPoppable |
| src/puzzle/puyo_grid.py:691-706 | a column of the wrong height returns False after the earlier columns were already copied | an empty board of two columns of height 1 loading [[Red], []]: False is returned and the board is [[Red], [Empty]] | a rejected load leaves the board unchanged | not executed | PyRules.LoadPartialOnReject | PyRules.LoadCheckedSpec |
| src/puzzle/falling_system.py:146-180 | a new pair is placed with its main cell in row 0 and rotation 0, which puts the sub cell in row -1 | any board | the pair spawns with its sub cell in row 0 | not executed | PyFalling.SpawnNeverFits | PyFalling.CorrectedSpawnFits |

The C# manager's `SpawnNextPuyo`, `ProcessChains`, `OnPuyoLanded` and `ResumeGame` keep the test as written, so in the modelled C# game the first attempted spawn ends the game. `SpawnNextPuyoCorrected` is the same method with `IsGameOverCorrected`, and it spawns exactly when the spawn cell is free. The Python grid and falling-system methods keep the code as written for the other three rows, because they model those methods. The corrected definitions sit beside them with their proved properties. `PyLevels.LevelCorrected` is also what `execute_chain_elimination` computes (`PyGrid.PuyoGrid.ExecuteChainElimination`). `LoadChecked` is a rejected load that leaves the board alone. `CorrectedSpawnRow` shows that a spawn one row higher fits on every board the authentic game-over test does not end.
