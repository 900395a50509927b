/**
 * BishopPiece: four diagonal rays. Its GetPossibleMoves takes the colour as a parameter;
 * every caller passes the bishop's own colour, which is what this model uses. Its CanAttack
 * is Attacks.BishopCanAttack.
 */
module Bishop {
  import opened Positions
  import opened Entities
  import opened Squares
  import opened Rays

  /** The moves of a bishop on `from`: the rays (1,1), (1,-1), (-1,-1) and (-1,1), in that order. */
  function BishopMoves(l: Layout, from: Position, color: Color): seq<Position>
  {
    Ray(l, from.Offset(1, 1), 1, 1, color) + Ray(l, from.Offset(1, -1), 1, -1, color)
    + Ray(l, from.Offset(-1, -1), -1, -1, color) + Ray(l, from.Offset(-1, 1), -1, 1, color)
  }

  /** BishopPiece.GetPossibleMoves: one while-loop per diagonal, appended in order. */
  method GetPossibleMoves(l: Layout, from: Position, color: Color) returns (moves: seq<Position>)
    ensures moves == BishopMoves(l, from, color)
  {
    var up := WalkRay(l, from.Offset(1, 1), 1, 1, color);
    var down := WalkRay(l, from.Offset(1, -1), 1, -1, color);
    var right := WalkRay(l, from.Offset(-1, -1), -1, -1, color);
    var left := WalkRay(l, from.Offset(-1, 1), -1, 1, color);
    moves := up + down + right + left;
  }

  /**
   * The bishop's moves are exactly the other squares of its diagonals that are free for it and
   * have only empty squares between.
   */
  lemma BishopMoveMembers(l: Layout, from: Position, color: Color, q: Position)
    ensures q in BishopMoves(l, from, color) <==>
      q != from && Abs(q.x - from.x) == Abs(q.y - from.y) && FreeFor(l, q, color) && Clear(l, from, q)
  {
    RayFrom(l, from, 1, 1, color, q);
    RayFrom(l, from, 1, -1, color, q);
    RayFrom(l, from, -1, -1, color, q);
    RayFrom(l, from, -1, 1, color, q);
  }
}
