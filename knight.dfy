/** KnightPiece: the eight jumps. Its CanAttack is Attacks.KnightCanAttack. */
module Knight {
  import opened Positions
  import opened Entities
  import opened Squares
  import opened Rays
  import opened Attacks
  import Board
  import opened Wrappers

  /** The moves of a knight on `from`: the free squares among its eight jumps, in the order GetPossibleMoves tries them. */
  function KnightMoves(l: Layout, from: Position, color: Color): seq<Position>
  {
    Leap(l, from, 1, 2, color) + Leap(l, from, -1, 2, color) + Leap(l, from, 2, 1, color) + Leap(l, from, 2, -1, color)
    + Leap(l, from, 1, -2, color) + Leap(l, from, -1, -2, color) + Leap(l, from, -2, 1, color) + Leap(l, from, -2, -1, color)
  }

  /** CheckPosition: appends the square at the offset when it is free for the knight. */
  method CheckPosition(dx: int, dy: int, moves: seq<Position>, from: Position, l: Layout, color: Color)
    returns (moves': seq<Position>)
    ensures moves' == moves + Leap(l, from, dx, dy, color)
  {
    moves' := moves;
    var position := from.Offset(dx, dy);
    if OnBoard(position) && (l[Index(position)].None? || l[Index(position)].value.color != color) {
      moves' := moves' + [position];
    }
  }

  /** KnightPiece.GetPossibleMoves: CheckPosition for each of the eight offsets in turn. */
  method GetPossibleMoves(l: Layout, from: Position, color: Color) returns (moves: seq<Position>)
    ensures moves == KnightMoves(l, from, color)
  {
    moves := [];
    moves := CheckPosition(1, 2, moves, from, l, color);
    assert moves == Leap(l, from, 1, 2, color);
    moves := CheckPosition(-1, 2, moves, from, l, color);
    moves := CheckPosition(2, 1, moves, from, l, color);
    moves := CheckPosition(2, -1, moves, from, l, color);
    moves := CheckPosition(1, -2, moves, from, l, color);
    moves := CheckPosition(-1, -2, moves, from, l, color);
    moves := CheckPosition(-2, 1, moves, from, l, color);
    moves := CheckPosition(-2, -1, moves, from, l, color);
  }

  /** The eight offsets of GetPossibleMoves are exactly the squares the knight's attack test names. */
  lemma JumpOffsets(from: Position, q: Position)
    ensures (q == from.Offset(1, 2)
      || q == from.Offset(-1, 2)
      || q == from.Offset(2, 1)
      || q == from.Offset(2, -1)
      || q == from.Offset(1, -2)
      || q == from.Offset(-1, -2)
      || q == from.Offset(-2, 1)
      || q == from.Offset(-2, -1))
      <==> KnightCanAttack(from, q)
  {
  }

  /**
   * A knight moves exactly to the squares its attack test names (a (1,2) or (2,1) jump) that
   * are free for it, and to at most eight of them.
   */
  lemma KnightMoveMembers(l: Layout, from: Position, color: Color, q: Position)
    ensures q in KnightMoves(l, from, color) <==> FreeFor(l, q, color) && KnightCanAttack(from, q)
    ensures |KnightMoves(l, from, color)| <= 8
  {
    JumpOffsets(from, q);
    LeapMember(l, from, 1, 2, color, q);
    LeapMember(l, from, -1, 2, color, q);
    LeapMember(l, from, 2, 1, color, q);
    LeapMember(l, from, 2, -1, color, q);
    LeapMember(l, from, 1, -2, color, q);
    LeapMember(l, from, -1, -2, color, q);
    LeapMember(l, from, -2, 1, color, q);
    LeapMember(l, from, -2, -1, color, q);
  }

  /** A knight on b1, g1, b8 or g8 whose forward jumps land on empty squares and whose other jumps are blocked by its own men. */
  lemma KnightB1(l: Layout)
    requires l[18].None? && l[16].None? && l[11].Some? && l[11].value.color == White
    ensures KnightMoves(l, Position(1, 0), White) == [Position(2, 2), Position(0, 2)]
  {
    assert Leap(l, Position(1, 0), 1, 2, White) == [Position(2, 2)];
    assert Leap(l, Position(1, 0), -1, 2, White) == [Position(0, 2)];
    assert Leap(l, Position(1, 0), 2, 1, White) == [];
    assert Leap(l, Position(1, 0), 2, -1, White) == [];
    assert Leap(l, Position(1, 0), 1, -2, White) == [];
    assert Leap(l, Position(1, 0), -1, -2, White) == [];
    assert Leap(l, Position(1, 0), -2, 1, White) == [];
    assert Leap(l, Position(1, 0), -2, -1, White) == [];
  }

  lemma KnightG1(l: Layout)
    requires l[23].None? && l[21].None? && l[12].Some? && l[12].value.color == White
    ensures KnightMoves(l, Position(6, 0), White) == [Position(7, 2), Position(5, 2)]
  {
    assert Leap(l, Position(6, 0), 1, 2, White) == [Position(7, 2)];
    assert Leap(l, Position(6, 0), -1, 2, White) == [Position(5, 2)];
    assert Leap(l, Position(6, 0), 2, 1, White) == [];
    assert Leap(l, Position(6, 0), 2, -1, White) == [];
    assert Leap(l, Position(6, 0), 1, -2, White) == [];
    assert Leap(l, Position(6, 0), -1, -2, White) == [];
    assert Leap(l, Position(6, 0), -2, 1, White) == [];
    assert Leap(l, Position(6, 0), -2, -1, White) == [];
  }

  lemma KnightB8(l: Layout)
    requires l[42].None? && l[40].None? && l[51].Some? && l[51].value.color == Black
    ensures KnightMoves(l, Position(1, 7), Black) == [Position(2, 5), Position(0, 5)]
  {
    assert Leap(l, Position(1, 7), 1, 2, Black) == [];
    assert Leap(l, Position(1, 7), -1, 2, Black) == [];
    assert Leap(l, Position(1, 7), 2, 1, Black) == [];
    assert Leap(l, Position(1, 7), 2, -1, Black) == [];
    assert Leap(l, Position(1, 7), 1, -2, Black) == [Position(2, 5)];
    assert Leap(l, Position(1, 7), -1, -2, Black) == [Position(0, 5)];
    assert Leap(l, Position(1, 7), -2, 1, Black) == [];
    assert Leap(l, Position(1, 7), -2, -1, Black) == [];
  }

  lemma KnightG8(l: Layout)
    requires l[47].None? && l[45].None? && l[52].Some? && l[52].value.color == Black
    ensures KnightMoves(l, Position(6, 7), Black) == [Position(7, 5), Position(5, 5)]
  {
    assert Leap(l, Position(6, 7), 1, 2, Black) == [];
    assert Leap(l, Position(6, 7), -1, 2, Black) == [];
    assert Leap(l, Position(6, 7), 2, 1, Black) == [];
    assert Leap(l, Position(6, 7), 2, -1, Black) == [];
    assert Leap(l, Position(6, 7), 1, -2, Black) == [Position(7, 5)];
    assert Leap(l, Position(6, 7), -1, -2, Black) == [Position(5, 5)];
    assert Leap(l, Position(6, 7), -2, 1, Black) == [];
    assert Leap(l, Position(6, 7), -2, -1, Black) == [];
  }

  /** On the initial board each knight has exactly its two forward jumps. */
  lemma InitialKnightMoves()
    ensures KnightMoves(Board.InitialLayout(), Position(1, 0), White) == [Position(2, 2), Position(0, 2)]
    ensures KnightMoves(Board.InitialLayout(), Position(6, 0), White) == [Position(7, 2), Position(5, 2)]
    ensures KnightMoves(Board.InitialLayout(), Position(1, 7), Black) == [Position(2, 5), Position(0, 5)]
    ensures KnightMoves(Board.InitialLayout(), Position(6, 7), Black) == [Position(7, 5), Position(5, 5)]
  {
    var l := Board.InitialLayout();
    Board.InitialRanks();
    assert l[18].None? && l[16].None? && l[11].Some? && l[11].value.color == White;
    assert l[23].None? && l[21].None? && l[12].Some? && l[12].value.color == White;
    assert l[42].None? && l[40].None? && l[51].Some? && l[51].value.color == Black;
    assert l[47].None? && l[45].None? && l[52].Some? && l[52].value.color == Black;
    KnightB1(l);
    KnightG1(l);
    KnightB8(l);
    KnightG8(l);
  }
}
