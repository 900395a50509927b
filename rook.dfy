/** RookPiece: four rays along the rank and file. Its CanAttack is Attacks.RookCanAttack. */
module Rook {
  import opened Positions
  import opened Entities
  import opened Squares
  import opened Rays

  /** The moves of a rook on `from`: the rays up, down, right and left, in that order. */
  function RookMoves(l: Layout, from: Position, color: Color): seq<Position>
  {
    Ray(l, from.Offset(0, 1), 0, 1, color) + Ray(l, from.Offset(0, -1), 0, -1, color)
    + Ray(l, from.Offset(1, 0), 1, 0, color) + Ray(l, from.Offset(-1, 0), -1, 0, color)
  }

  /** RookPiece.GetPossibleMoves: one while-loop per direction, appended in order. */
  method GetPossibleMoves(l: Layout, from: Position, color: Color) returns (moves: seq<Position>)
    ensures moves == RookMoves(l, from, color)
  {
    var up := WalkRay(l, from.Offset(0, 1), 0, 1, color);
    var down := WalkRay(l, from.Offset(0, -1), 0, -1, color);
    var right := WalkRay(l, from.Offset(1, 0), 1, 0, color);
    var left := WalkRay(l, from.Offset(-1, 0), -1, 0, color);
    moves := up + down + right + left;
  }

  /**
   * The rook's moves are exactly the other squares of its rank and file that are free for it
   * and have only empty squares between: each ray takes the first enemy piece and stops
   * before the first own piece.
   */
  lemma RookMoveMembers(l: Layout, from: Position, color: Color, q: Position)
    ensures q in RookMoves(l, from, color) <==>
      q != from && (q.x == from.x || q.y == from.y) && FreeFor(l, q, color) && Clear(l, from, q)
  {
    RayFrom(l, from, 0, 1, color, q);
    RayFrom(l, from, 0, -1, color, q);
    RayFrom(l, from, 1, 0, color, q);
    RayFrom(l, from, -1, 0, color, q);
  }
}
