/** The play field: a square of GridCount x GridCount cells addressed by
    integer coordinates, and the four unit vectors a snake can move along.
    Directions and cells share one record type, as they do in the game. */
module Grid {

  /** Pixel size of one cell and of the canvas; the grid has 400 / 20 = 20
      cells per side. */
  const GridSize: int := 20
  const CanvasSize: int := 400
  const GridCount: int := CanvasSize / GridSize

  /** A cell, or a direction vector. */
  datatype Pos = Pos(x: int, y: int)

  const Up: Pos := Pos(0, -1)
  const Down: Pos := Pos(0, 1)
  const Left: Pos := Pos(-1, 0)
  const Right: Pos := Pos(1, 0)

  predicate InBounds(p: Pos) {
    0 <= p.x < GridCount && 0 <= p.y < GridCount
  }

  /** Every draw of a random cell lands on the grid. */
  predicate OnGrid(cells: seq<Pos>) {
    forall i :: 0 <= i < |cells| ==> InBounds(cells[i])
  }

  /** The cell reached from `p` by moving along `d`. */
  function Add(p: Pos, d: Pos): Pos {
    Pos(p.x + d.x, p.y + d.y)
  }

  predicate IsUnit(d: Pos) {
    d == Up || d == Down || d == Left || d == Right
  }

  function Opposite(d: Pos): Pos {
    Pos(-d.x, -d.y)
  }

  function Abs(n: int): nat {
    if n < 0 then -n else n
  }

  /** Two cells that share an edge. */
  predicate Adjacent(a: Pos, b: Pos) {
    Abs(a.x - b.x) + Abs(a.y - b.y) == 1
  }
}
