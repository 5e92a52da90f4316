/**
 * Points and players. The repository's own types module is not part of this
 * model; these are the two value types it provides: a point is a pair of
 * 1-based coordinates with four orthogonal neighbours, a player one of two
 * colours with an opponent.
 */
module GoTypes {

  datatype Player = Black | White {
    /** The opponent. */
    function Other(): (o: Player)
      ensures o != this
    {
      if this == Black then White else Black
    }
  }

  datatype Point = Point(row: int, col: int)

  /** Two points are adjacent when they differ by one step along one axis. */
  predicate Adjacent(p: Point, q: Point)
  {
    || (p.row == q.row && (p.col == q.col + 1 || q.col == p.col + 1))
    || (p.col == q.col && (p.row == q.row + 1 || q.row == p.row + 1))
  }

  /** The four orthogonal neighbours of `p`, in the order row - 1, row + 1,
    * column - 1, column + 1; they are not checked against any board. */
  function Neighbors(p: Point): (ns: seq<Point>)
    ensures |ns| == 4
    ensures forall q :: q in ns <==> Adjacent(p, q)
    ensures p !in ns
  {
    [Point(p.row - 1, p.col), Point(p.row + 1, p.col),
     Point(p.row, p.col - 1), Point(p.row, p.col + 1)]
  }

  /** Adjacency is symmetric, so `q` is a neighbour of `p` exactly when `p`
    * is a neighbour of `q`. */
  lemma NeighborsSymmetric(p: Point, q: Point)
    ensures q in Neighbors(p) <==> p in Neighbors(q)
  {
  }

  /** The board's bounds check: rows 1..rows and columns 1..cols. */
  predicate OnGrid(rows: int, cols: int, p: Point)
  {
    1 <= p.row <= rows && 1 <= p.col <= cols
  }
}
