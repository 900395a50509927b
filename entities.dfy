/**
 * The piece values: colours, variants, special moves and the per-piece state
 * (ChessMagic/Entity/Piece.cs fields, ChessMagic/Util/PieceType.cs, ChessMagic/Util/GameState.cs).
 */
module Entities {
  import opened Wrappers
  import opened Positions

  datatype Color = White | Black

  datatype PieceType = Pawn | Rook | Knight | Bishop | Queen | King

  datatype GameState = Stalemate | WhiteWin | BlackWin | Ready

  /**
   * A move with an effect beyond relocating one piece: its destination and the other
   * square it involves (the rook for castling, the captured pawn for en passant).
   */
  datatype SpecialMove = SpecialMove(involvingPosition: Option<Position>, posTo: Position)

  /**
   * What move generation and CanAttack read of a piece: its variant, its colour, FirstMove
   * and, for pawns, performedDoubleMove.
   */
  datatype Man = Man(kind: PieceType, color: Color, firstMove: bool, performedDoubleMove: bool)

  /** A piece: what it is, plus the move arrays cached by the last generation and filtering. */
  datatype Piece = Piece(man: Man, possibleMoves: seq<Position>, possibleSpecialMoves: seq<SpecialMove>)

  /** A freshly constructed piece: FirstMove starts true and nothing in the engine clears it. */
  function NewPiece(kind: PieceType, color: Color): (p: Piece)
    ensures p.man.kind == kind && p.man.color == color
    ensures p.man.firstMove && !p.man.performedDoubleMove
    ensures p.possibleMoves == [] && p.possibleSpecialMoves == []
  {
    Piece(Man(kind, color, true, false), [], [])
  }

  /** Piece.AlgebraicNotation: only the rook and the king override the empty default. */
  function AlgebraicNotation(kind: PieceType): (s: string)
    ensures s != [] <==> kind == Rook || kind == King
  {
    match kind
    case Rook => "R"
    case King => "K"
    case _ => ""
  }
}
