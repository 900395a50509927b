/** Board coordinates (ChessMagic/Util/Position.cs). */
module Positions {

  /** An x (file) and y (rank) pair; neither construction nor Offset checks the range. */
  datatype Position = Position(x: int, y: int) {

    function Offset(dx: int, dy: int): (r: Position)
      ensures r.x == x + dx && r.y == y + dy
    {
      Position(x + dx, y + dy)
    }

    /** The overridden Equals: both coordinates agree. */
    predicate Equals(other: Position)
    {
      other.x == x && other.y == y
    }

    predicate IsInvalid()
    {
      this == Invalid
    }
  }

  /** The sentinel for "no position"; its coordinates are assumed to be (-1, -1). */
  const Invalid: Position := Position(-1, -1)

  /** The range ChessBoard.ConvertToSquare accepts. */
  predicate OnBoard(p: Position)
  {
    0 <= p.x <= 7 && 0 <= p.y <= 7
  }

  /** The storage index y*8+x of an on-board position. */
  function Index(p: Position): (i: nat)
    requires OnBoard(p)
    ensures i < 64
  {
    p.y * 8 + p.x
  }

  /** The position stored at index i. */
  function PosOf(i: int): (p: Position)
    requires 0 <= i < 64
    ensures OnBoard(p) && Index(p) == i
  {
    Position(i % 8, i / 8)
  }

  lemma IndexInjective(p: Position, q: Position)
    requires OnBoard(p) && OnBoard(q) && Index(p) == Index(q)
    ensures p == q
  {
  }

  lemma OffsetComposes(p: Position, a: int, b: int, c: int, d: int)
    ensures p.Offset(a, b).Offset(c, d) == p.Offset(a + c, b + d)
  {
  }

  lemma OffsetZero(p: Position)
    ensures p.Offset(0, 0) == p
  {
  }

  lemma EqualsIsValueEquality(p: Position, q: Position)
    ensures p.Equals(q) <==> p == q
    ensures p.Equals(q) <==> q.Equals(p)
  {
  }

  lemma NoRangeCheck()
    ensures Position(0, 8).y == 8 && !OnBoard(Position(0, 8))
    ensures Position(7, 7).Offset(1, 0) == Position(8, 7)
  {
  }

  lemma InvalidSentinel()
    ensures Invalid.IsInvalid() && !Position(1, 1).IsInvalid()
    ensures !OnBoard(Invalid)
  {
  }
}
