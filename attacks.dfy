/**
 * CanAttack of the six pieces: can the piece standing on `from` attack `to`, with the attack
 * passing the go-through square and cutting through at most `depth` pieces. The go-through
 * square is optional, as the null-able position of the source is.
 */
module Attacks {
  import opened Wrappers
  import opened Positions
  import opened Entities
  import opened Squares
  import opened Rays

  /** RookPiece.CanAttack: the guards on the offsets, then the walk along the rank or file. */
  function RookCanAttack(l: Layout, from: Position, to: Position, through: Option<Position>, depth: int): bool
  {
    if through.None? then false
    else
      var xOffset, yOffset := to.x - from.x, to.y - from.y;
      var g := through.value;
      if xOffset != 0 && yOffset != 0 then false
      else if to.x - g.x != 0 && to.y - g.y != 0 then false
      else if xOffset == 0 && yOffset == 0 then g == from
      else Walk(l, from.Offset(Sign(xOffset), Sign(yOffset)), Sign(xOffset), Sign(yOffset), to, g, depth, from == g)
  }

  /** BishopPiece.CanAttack: the diagonal guards, then the walk along the diagonal. */
  function BishopCanAttack(l: Layout, from: Position, to: Position, through: Option<Position>, depth: int): bool
  {
    if through.None? then false
    else
      var xOffset, yOffset := to.x - from.x, to.y - from.y;
      var g := through.value;
      if Abs(xOffset) != Abs(yOffset) then false
      else if Abs(from.x - g.x) != Abs(from.y - g.y) then false
      else if xOffset == 0 && yOffset == 0 then from == g
      else Walk(l, from.Offset(Sign(xOffset), Sign(yOffset)), Sign(xOffset), Sign(yOffset), to, g, depth, from == g)
  }

  /**
   * QueenPiece.CanAttack: its first guard rejects every offset that is not both diagonal and
   * axis-aligned, which leaves only the zero offset, so its walk is never reached.
   */
  function QueenCanAttack(l: Layout, from: Position, to: Position, through: Option<Position>, depth: int): bool
  {
    if through.None? then false
    else
      var xOffset, yOffset := to.x - from.x, to.y - from.y;
      var g := through.value;
      if Abs(xOffset) != Abs(yOffset) || (xOffset != 0 && yOffset != 0) then false
      else if Abs(from.x - g.x) != Abs(from.y - g.y) || (to.x - g.x != 0 && to.y - g.y != 0) then false
      else if xOffset == 0 && yOffset == 0 then from == g
      else assert false; false
  }

  /** KnightPiece.CanAttack: a (1,2) or (2,1) jump, whatever the board, go-through and depth. */
  function KnightCanAttack(from: Position, to: Position): bool
  {
    (Abs(from.x - to.x) == 1 && Abs(from.y - to.y) == 2) || (Abs(from.x - to.x) == 2 && Abs(from.y - to.y) == 1)
  }

  /** KingPiece.CanAttack: both distances below one. */
  function KingCanAttack(from: Position, to: Position): bool
  {
    Abs(from.x - to.x) < 1 && Abs(from.y - to.y) < 1
  }

  /** The direction a pawn of this colour moves along y. */
  function Direction(color: Color): int
  {
    if color == Black then -1 else 1
  }

  /** PawnPiece.CanAttack: from - to equals (dir, dir). */
  function PawnCanAttack(color: Color, from: Position, to: Position): bool
  {
    from.x - to.x == Direction(color) && from.y - to.y == Direction(color)
  }

  /** Piece.CanAttack, dispatched on the piece standing on from. */
  function CanAttack(m: Man, from: Position, to: Position, l: Layout, through: Option<Position>, depth: int): bool
  {
    match m.kind
    case Rook => RookCanAttack(l, from, to, through, depth)
    case Bishop => BishopCanAttack(l, from, to, through, depth)
    case Queen => QueenCanAttack(l, from, to, through, depth)
    case Knight => KnightCanAttack(from, to)
    case King => KingCanAttack(from, to)
    case Pawn => PawnCanAttack(m.color, from, to)
  }

  /**
   * The rook attacks exactly along its rank or file: on its own square iff the go-through square
   * is that square, elsewhere iff the line to the target is clear enough and passes the
   * go-through square.
   */
  lemma RookAttack(l: Layout, from: Position, to: Position, through: Option<Position>, depth: int)
    ensures RookCanAttack(l, from, to, through, depth) <==>
      through.Some? && (from.x == to.x || from.y == to.y) &&
      (if from == to then through.value == from else Reaches(l, from, to, through.value, depth))
  {
    if through.Some? && (from.x == to.x || from.y == to.y) && from != to {
      var g := through.value;
      WalkReaches(l, from, to, g, depth);
      if g != from && g in Between(from, to) {
        BetweenOnLine(from, to, g);
      }
    }
  }

  /**
   * The bishop attacks exactly along its diagonals: on its own square iff the go-through square
   * is that square, elsewhere iff the diagonal to the target is clear enough and passes the
   * go-through square.
   */
  lemma BishopAttack(l: Layout, from: Position, to: Position, through: Option<Position>, depth: int)
    ensures BishopCanAttack(l, from, to, through, depth) <==>
      through.Some? && Abs(to.x - from.x) == Abs(to.y - from.y) &&
      (if from == to then through.value == from else Reaches(l, from, to, through.value, depth))
  {
    if through.Some? && Abs(to.x - from.x) == Abs(to.y - from.y) && from != to {
      var g := through.value;
      WalkReaches(l, from, to, g, depth);
      if g != from && g in Between(from, to) {
        BetweenOnLine(from, to, g);
      }
    }
  }

  /** The queen's attack test holds only for its own square with itself as go-through square. */
  lemma QueenAttack(l: Layout, from: Position, to: Position, through: Option<Position>, depth: int)
    ensures QueenCanAttack(l, from, to, through, depth) <==> through == Some(from) && to == from
  {
  }

  /** The king's attack test holds only for its own square. */
  lemma KingAttack(from: Position, to: Position)
    ensures KingCanAttack(from, to) <==> from == to
  {
  }

  /** The pawn's attack test names the square one step behind it on its left, for either colour. */
  lemma PawnAttack(color: Color, from: Position, to: Position)
    ensures PawnCanAttack(color, from, to) <==>
      to == from.Offset(-Direction(color), -Direction(color))
  {
  }
}
