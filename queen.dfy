/**
 * QueenPiece: the four rook rays followed by the four bishop rays. Its CanAttack is
 * Attacks.QueenCanAttack.
 */
module Queen {
  import opened Positions
  import opened Entities
  import opened Squares
  import opened Rays
  import Rook
  import Bishop

  /** QueenPiece.GetPossibleMoves: eight while-loops, the rank and file first, then the diagonals. */
  method GetPossibleMoves(l: Layout, from: Position, color: Color) returns (moves: seq<Position>)
    ensures moves == Rook.RookMoves(l, from, color) + Bishop.BishopMoves(l, from, color)
  {
    var up := WalkRay(l, from.Offset(0, 1), 0, 1, color);
    var down := WalkRay(l, from.Offset(0, -1), 0, -1, color);
    var right := WalkRay(l, from.Offset(1, 0), 1, 0, color);
    var left := WalkRay(l, from.Offset(-1, 0), -1, 0, color);
    var upLeft := WalkRay(l, from.Offset(1, 1), 1, 1, color);
    var downLeft := WalkRay(l, from.Offset(1, -1), 1, -1, color);
    var downRight := WalkRay(l, from.Offset(-1, -1), -1, -1, color);
    var upRight := WalkRay(l, from.Offset(-1, 1), -1, 1, color);
    var straight := up + down + right + left;
    assert straight == Rook.RookMoves(l, from, color);
    var diagonal := upLeft + downLeft + downRight + upRight;
    assert diagonal == Bishop.BishopMoves(l, from, color);
    moves := straight + diagonal;
  }

  /**
   * The queen's moves are exactly the other squares of its rank, file and diagonals that are
   * free for it and have only empty squares between.
   */
  lemma QueenMoveMembers(l: Layout, from: Position, color: Color, q: Position)
    ensures q in Rook.RookMoves(l, from, color) + Bishop.BishopMoves(l, from, color) <==>
      q != from && Aligned(from, q) && FreeFor(l, q, color) && Clear(l, from, q)
  {
    Rook.RookMoveMembers(l, from, color, q);
    Bishop.BishopMoveMembers(l, from, color, q);
  }
}
