/** GameSnapshot: the 64-character picture of a board and the per-piece character code. */
module Snapshots {
  import opened Wrappers
  import opened Entities

  /** string.ToLower on the letters the notations use. */
  function ToLower(c: char): char
  {
    if 'A' <= c <= 'Z' then (c as int + 32) as char else c
  }

  /**
   * GameSnapshot.EncodePiece: 'x' for no piece; otherwise the first letter of the notation,
   * with "p" standing in for an empty notation, lowered for White.
   */
  function EncodePiece(piece: Option<Piece>): (c: char)
    ensures piece.None? <==> c == 'x'
  {
    match piece
    case None => 'x'
    case Some(p) =>
      var pType := if AlgebraicNotation(p.man.kind) == "" then "p" else AlgebraicNotation(p.man.kind);
      if p.man.color == White then ToLower(pType[0]) else pType[0]
  }

  /** GameSnapshot.DecodeCharacter: a fresh piece for each of the twelve letters, Err for any other character. */
  function DecodeCharacter(c: char): Result<Option<Piece>>
  {
    match c
    case 'x' => Ok(None)
    case 'r' => Ok(Some(NewPiece(Rook, White)))
    case 'R' => Ok(Some(NewPiece(Rook, Black)))
    case 'n' => Ok(Some(NewPiece(Knight, White)))
    case 'N' => Ok(Some(NewPiece(Knight, Black)))
    case 'b' => Ok(Some(NewPiece(Bishop, White)))
    case 'B' => Ok(Some(NewPiece(Bishop, Black)))
    case 'q' => Ok(Some(NewPiece(Queen, White)))
    case 'Q' => Ok(Some(NewPiece(Queen, Black)))
    case 'k' => Ok(Some(NewPiece(King, White)))
    case 'K' => Ok(Some(NewPiece(King, Black)))
    case 'p' => Ok(Some(NewPiece(Pawn, White)))
    case 'P' => Ok(Some(NewPiece(Pawn, Black)))
    case _ => Err("Invalid character")
  }

  /** The letter that names each piece kind in a snapshot. */
  function Letter(kind: PieceType): char
  {
    match kind
    case Rook => 'r'
    case Knight => 'n'
    case Bishop => 'b'
    case Queen => 'q'
    case King => 'k'
    case Pawn => 'p'
  }

  /** The upper-case form of a kind's letter. */
  function UpperLetter(kind: PieceType): char
  {
    (Letter(kind) as int - 32) as char
  }

  /**
   * Decoding accepts exactly 'x' and the six letters in either case: a lower-case letter gives a
   * fresh White piece of its kind, the upper-case letter a fresh Black one.
   */
  lemma DecodeTable(c: char)
    ensures DecodeCharacter(c).Ok? <==> c == 'x' || exists kind :: c == Letter(kind) || c == UpperLetter(kind)
    ensures c == 'x' ==> DecodeCharacter(c) == Ok(None)
    ensures forall kind :: c == Letter(kind) ==> DecodeCharacter(c) == Ok(Some(NewPiece(kind, White)))
    ensures forall kind :: c == UpperLetter(kind) ==> DecodeCharacter(c) == Ok(Some(NewPiece(kind, Black)))
  {
    if DecodeCharacter(c).Ok? && c != 'x' {
      var kind :=
        if c == 'r' || c == 'R' then Rook else if c == 'n' || c == 'N' then Knight
        else if c == 'b' || c == 'B' then Bishop else if c == 'q' || c == 'Q' then Queen
        else if c == 'k' || c == 'K' then King else Pawn;
      assert c == Letter(kind) || c == UpperLetter(kind);
    }
  }

  /** Rooks and kings survive an encode/decode round trip with their kind and colour. */
  lemma RoyalRoundTrip(p: Piece)
    requires p.man.kind == Rook || p.man.kind == King
    ensures DecodeCharacter(EncodePiece(Some(p))) == Ok(Some(NewPiece(p.man.kind, p.man.color)))
  {
  }

  /** Every other piece encodes to 'p', whatever its colour, and so comes back as a White pawn. */
  lemma OthersBecomeWhitePawns(p: Piece)
    requires p.man.kind != Rook && p.man.kind != King
    ensures EncodePiece(Some(p)) == 'p'
    ensures DecodeCharacter(EncodePiece(Some(p))) == Ok(Some(NewPiece(Pawn, White)))
  {
  }

  /** The characters a board can produce decode and encode back to themselves. */
  lemma CharacterRoundTrip(c: char)
    requires c in "xrRkKp"
    ensures DecodeCharacter(c).Ok? && EncodePiece(DecodeCharacter(c).value) == c
  {
  }

  class GameSnapshot {
    /** The 64 characters, indexed like the board's squares. */
    const snapshot: array<char>
    const playerNext: Color

    predicate Valid()
      reads this
    {
      snapshot.Length == 64
    }

    constructor (playerNext: Color)
      ensures Valid() && fresh(snapshot)
      ensures this.playerNext == playerNext
      ensures forall i :: 0 <= i < 64 ==> snapshot[i] == '\0'
    {
      this.playerNext := playerNext;
      snapshot := new char[64]((_: int) => '\0');
    }

    /** The indexer's getter. */
    function Get(index: int): char
      requires Valid() && 0 <= index < 64
      reads this, snapshot
    {
      snapshot[index]
    }

    /** The indexer's setter: the written index reads back the new value, the other 63 are kept. */
    method Set(index: int, value: char)
      requires Valid() && 0 <= index < 64
      modifies snapshot
      ensures Valid()
      ensures Get(index) == value
      ensures forall j :: 0 <= j < 64 && j != index ==> Get(j) == old(Get(j))
    {
      snapshot[index] := value;
    }
  }
}
