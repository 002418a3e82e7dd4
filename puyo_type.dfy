/**
 * Cell data of the C# board (legacy/Scripts/Core/PuyoType.cs): the five
 * colours plus Empty, the lifecycle states, and the record kept in each
 * board cell. The Unity game-object handle of a cell is not modelled.
 */
module PuyoTypes {

  datatype PuyoColor = Red | Blue | Green | Yellow | Purple | Empty

  datatype PuyoState = Falling | Landed | Matched | Destroyed

  /** Unity's Vector2Int; y grows upwards, so y = 0 is the bottom row. */
  datatype Pos = Pos(x: int, y: int) {
    function Plus(d: Pos): Pos { Pos(x + d.x, y + d.y) }
  }

  const Up := Pos(0, 1)
  const Down := Pos(0, -1)
  const Left := Pos(-1, 0)
  const Right := Pos(1, 0)

  /** The four unit steps of the board: two cells are adjacent when they differ by one of them. */
  predicate Adjacent(p: Pos, q: Pos) {
    (p.x == q.x && (q.y == p.y + 1 || q.y == p.y - 1)) ||
    (p.y == q.y && (q.x == p.x + 1 || q.x == p.x - 1))
  }

  datatype PuyoData = PuyoData(color: PuyoColor, state: PuyoState, gridPosition: Pos) {
    predicate IsEmpty() { color == Empty }
    predicate CanMatch() { state == Landed && !IsEmpty() }
  }

  /** The PuyoData constructor: a new cell always starts Falling, so it can never match yet. */
  function NewPuyoData(color: PuyoColor, position: Pos): (d: PuyoData)
    ensures d.color == color && d.gridPosition == position && d.state == Falling
    ensures !d.CanMatch()
    ensures d.IsEmpty() <==> color == Empty
  {
    PuyoData(color, Falling, position)
  }
}
