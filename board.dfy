/**
 * ChessBoard (ChessMagic/Board/ChessBoard.cs): the 64 squares stored row-major at y*8+x, the
 * queries over them and the primitive moves. Generation, filtering and special moves, which
 * need the pieces, are in the Engine module.
 */
module Board {
  import opened Wrappers
  import opened Positions
  import opened Entities
  import opened Squares
  import opened Snapshots

  /**
   * The notation a move reports: a text prefix followed, when present, by a square's name
   * (a plain move: the piece's notation and the destination; a castling: "O-O" or "O-O-O"
   * alone). The rendering of a square's name is not part of this model.
   */
  datatype Notation = Notation(prefix: string, square: Option<Position>)

  /** The piece InitializeBoard creates for square i. */
  function InitialOccupant(i: int): Option<Piece>
  {
    if (8 <= i < 16) || (48 <= i < 56) then Some(NewPiece(Pawn, if i >= 16 then Black else White))
    else if i == 0 || i == 7 || i == 56 || i == 63 then Some(NewPiece(Rook, if i >= 9 then Black else White))
    else if i == 1 || i == 6 || i == 57 || i == 62 then Some(NewPiece(Knight, if i >= 9 then Black else White))
    else if i == 2 || i == 5 || i == 58 || i == 61 then Some(NewPiece(Bishop, if i >= 9 then Black else White))
    else if i == 3 || i == 59 then Some(NewPiece(Queen, if i >= 9 then Black else White))
    else if i == 4 || i == 60 then Some(NewPiece(King, if i >= 9 then Black else White))
    else None
  }

  /** What InitializeBoard puts where, as move generation sees it. */
  function InitialLayout(): Layout
  {
    seq(64, i requires 0 <= i < 64 => if InitialOccupant(i).Some? then Some(InitialOccupant(i).value.man) else None)
  }

  /** The back rank of the standard starting position, file by file. */
  function BackRank(x: int): PieceType
    requires 0 <= x < 8
  {
    [Rook, Knight, Bishop, Queen, King, Bishop, Knight, Rook][x]
  }

  /**
   * The initial board is the standard starting position: White on ranks 0 and 1, Black on
   * ranks 6 and 7, pawns on ranks 1 and 6, the back rank in file order, everything fresh, and
   * the middle of the board empty.
   */
  lemma InitialPosition(i: int)
    requires 0 <= i < 64
    ensures InitialOccupant(i).None? <==> 16 <= i < 48
    ensures 8 <= i < 16 ==> InitialOccupant(i) == Some(NewPiece(Pawn, White))
    ensures 48 <= i < 56 ==> InitialOccupant(i) == Some(NewPiece(Pawn, Black))
    ensures i < 8 ==> InitialOccupant(i) == Some(NewPiece(BackRank(i % 8), White))
    ensures 56 <= i ==> InitialOccupant(i) == Some(NewPiece(BackRank(i % 8), Black))
  {
  }

  /** Ranks 1 and 2 hold white men, ranks 7 and 8 black men, and the four ranks between are empty. */
  predicate StartingRanks(l: Layout)
  {
    forall i :: 0 <= i < 64 ==>
      (l[i].None? <==> 16 <= i < 48) && (l[i].Some? ==> l[i].value.color == if i < 16 then White else Black)
  }

  lemma InitialRanks()
    ensures StartingRanks(InitialLayout())
  {
    forall i | 0 <= i < 64
      ensures var l := InitialLayout();
        (l[i].None? <==> 16 <= i < 48) && (l[i].Some? ==> l[i].value.color == if i < 16 then White else Black)
    {
      InitialPosition(i);
    }
  }

  /** A king of this colour stands on square i. */
  predicate KingAt(l: Layout, i: int, color: Color)
    requires 0 <= i < 64
  {
    l[i].Some? && l[i].value.color == color && l[i].value.kind == King
  }

  /**
   * The parse of HasLegalMoves' condition: the occupant has the given colour and cached moves,
   * or the square has cached special moves of whichever colour.
   */
  predicate Mobile(s: Square, color: Color)
  {
    (s.occupant.Some? && s.occupant.value.man.color == color && s.PossibleMoves() != []) || s.PossibleSpecialMoves() != []
  }

  function OccupantsOf(cells: seq<Square>): (occ: seq<Option<Piece>>)
    requires |cells| == 64
    ensures |occ| == 64 && forall i :: 0 <= i < 64 ==> occ[i] == cells[i].occupant
  {
    seq(64, i requires 0 <= i < 64 => cells[i].occupant)
  }

  /** The character CreateSnapshot writes for an occupant, when it can write one. */
  function SnapshotChar(occupant: Option<Piece>): Result<char>
  {
    match occupant
    case None => Ok('x')
    case Some(p) =>
      var pType := AlgebraicNotation(p.man.kind);
      var pType := if p.man.color == White then seq(|pType|, j requires 0 <= j < |pType| => ToLower(pType[j])) else pType;
      if pType == [] then Err(IndexOutOfRange) else Ok(pType[0])
  }

  /** CreateSnapshot writes EncodePiece's character where it succeeds, and fails exactly on the pieces without a notation. */
  lemma SnapshotCharIsEncoding(occupant: Option<Piece>)
    ensures SnapshotChar(occupant).Ok? <==> occupant.None? || occupant.value.man.kind in {Rook, King}
    ensures SnapshotChar(occupant).Ok? ==> SnapshotChar(occupant).value == EncodePiece(occupant)
  {
  }

  /** PerformMove(from, to) succeeds: both squares are on the board and from is occupied. */
  predicate MoveOk(occupants: seq<Option<Piece>>, from: Position, to: Position)
    requires |occupants| == 64
  {
    OnBoard(from) && occupants[Index(from)].Some? && OnBoard(to)
  }

  /** The occupants after the piece on from is lifted and put down on to (over whatever stood there). */
  function Moved(occupants: seq<Option<Piece>>, from: Position, to: Position): (r: seq<Option<Piece>>)
    requires |occupants| == 64 && OnBoard(from) && OnBoard(to)
    ensures |r| == 64
    ensures r[Index(to)] == occupants[Index(from)]
    ensures from != to ==> r[Index(from)].None?
    ensures forall i :: 0 <= i < 64 && i != Index(from) && i != Index(to) ==> r[i] == occupants[i]
  {
    occupants[Index(from) := None][Index(to) := occupants[Index(from)]]
  }

  /**
   * The occupants after ChessBoard.PerformMove(from, to), whether it succeeds or raises: an
   * off-board or empty origin changes nothing, an off-board destination loses the lifted piece,
   * and otherwise the piece is moved.
   */
  function AfterMove(occupants: seq<Option<Piece>>, from: Position, to: Position): (r: seq<Option<Piece>>)
    requires |occupants| == 64
    ensures |r| == 64
    ensures MoveOk(occupants, from, to) ==> r == Moved(occupants, from, to)
    ensures !OnBoard(from) || occupants[Index(from)].None? ==> r == occupants
    ensures OnBoard(from) && occupants[Index(from)].Some? && !OnBoard(to) ==>
      r[Index(from)].None? && forall i :: 0 <= i < 64 && i != Index(from) ==> r[i] == occupants[i]
  {
    if !OnBoard(from) || occupants[Index(from)].None? then occupants
    else if !OnBoard(to) then occupants[Index(from) := None]
    else Moved(occupants, from, to)
  }

  /** The message ChessBoard.PerformMove(from, to) raises when the move is not MoveOk. */
  function MoveError(occupants: seq<Option<Piece>>, from: Position, to: Position): string
    requires |occupants| == 64
  {
    if OnBoard(from) && occupants[Index(from)].None? then "No piece was found from removing position"
    else "Invalid square position"
  }

  class ChessBoard {
    /** _squares: the square of (x, y) is at y*8+x. */
    const squares: array<Square>

    predicate Valid()
      reads this
    {
      squares.Length == 64
    }

    /** What stands where, as move generation reads it. */
    function Layout(): Layout
      requires Valid()
      reads this, squares
    {
      LayoutOf(squares[..])
    }

    /** Every square's threat list. */
    function Threats(): ThreatLists
      requires Valid()
      reads this, squares
    {
      ThreatsOf(squares[..])
    }

    /** Every square's occupant, with its cached moves. */
    function Occupants(): seq<Option<Piece>>
      requires Valid()
      reads this, squares
    {
      OccupantsOf(squares[..])
    }

    /** new ChessBoard() up to, not including, its CalculateMoves call (see Engine.NewBoard). */
    constructor ()
      ensures Valid() && fresh(squares)
      ensures forall i :: 0 <= i < 64 ==> squares[i] == NewSquare(InitialOccupant(i))
      ensures Layout() == InitialLayout()
    {
      squares := new Square[64]((_: int) => NewSquare(None));
      new;
      InitializeBoard();
    }

    /** Puts a new square holding the initial piece, or nothing, on each of the 64 cells. */
    method InitializeBoard()
      requires Valid()
      modifies squares
      ensures forall i :: 0 <= i < 64 ==> squares[i] == NewSquare(InitialOccupant(i))
    {
      for i := 0 to squares.Length
        invariant forall j :: 0 <= j < i ==> squares[j] == NewSquare(InitialOccupant(j))
      {
        squares[i] := NewSquare(InitialOccupant(i));
      }
    }

    /** The square at a position, none off the board. */
    function ConvertToSquare(position: Position): (r: Option<Square>)
      requires Valid()
      reads this, squares
      ensures r.None? <==> position.x < 0 || position.x > 7 || position.y < 0 || position.y > 7
      ensures r.Some? ==> r.value == squares[position.y * 8 + position.x]
    {
      if !OnBoard(position) then None else Some(squares[Index(position)])
    }

    /** Whether anything threatens the square; an error off the board. */
    function IsPositionThreatened(position: Position): (r: Result<bool>)
      requires Valid()
      reads this, squares
      ensures r.Err? <==> !OnBoard(position)
      ensures r.Ok? ==> (r.value <==> Threats()[Index(position)] != [])
    {
      match ConvertToSquare(position)
      case None => Err("Wrong position")
      case Some(square) => Ok(|square.threateningPositions| > 0)
    }

    /** The first square, scanning rows y = 0..7 and in each x = 0..7, holding a king of the colour. */
    method FindKing(color: Color) returns (r: Result<Position>)
      requires Valid()
      ensures r.Ok? ==> OnBoard(r.value) && KingAt(Layout(), Index(r.value), color)
      ensures r.Ok? ==> forall i :: 0 <= i < Index(r.value) ==> !KingAt(Layout(), i, color)
      ensures r.Err? <==> forall i :: 0 <= i < 64 ==> !KingAt(Layout(), i, color)
    {
      ghost var l := Layout();
      for y := 0 to 8
        invariant forall i :: 0 <= i < y * 8 ==> !KingAt(l, i, color)
      {
        for x := 0 to 8
          invariant forall i :: 0 <= i < y * 8 + x ==> !KingAt(l, i, color)
        {
          var pos := Position(x, y);
          var square := squares[y * 8 + x];
          assert l[y * 8 + x] == ManOf(square);
          if !square.IsOccupied() {
            continue;
          }
          if square.occupant.value.man.color == color && square.occupant.value.man.kind == King {
            assert KingAt(l, Index(pos), color);
            return Ok(pos);
          }
        }
      }
      return Err("The king should always exist on the board!");
    }

    /** The cached moves at a position when its occupant has the colour, else none. */
    function GetMovesFor(color: Color, location: Position): (r: seq<Position>)
      requires Valid()
      reads this, squares
      ensures !OnBoard(location) || Occupants()[Index(location)].None? ==> r == []
      ensures OnBoard(location) && Occupants()[Index(location)].Some? ==>
        r == if Occupants()[Index(location)].value.man.color == color then Occupants()[Index(location)].value.possibleMoves else []
    {
      match ConvertToSquare(location)
      case None => []
      case Some(square) =>
        if square.occupant.Some? && square.occupant.value.man.color == color then square.PossibleMoves() else []
    }

    /** The cached special moves at a position when its occupant has the colour, else none. */
    function GetSpecialMovesFor(color: Color, location: Position): (r: seq<SpecialMove>)
      requires Valid()
      reads this, squares
      ensures !OnBoard(location) || Occupants()[Index(location)].None? ==> r == []
      ensures OnBoard(location) && Occupants()[Index(location)].Some? ==>
        r == if Occupants()[Index(location)].value.man.color == color then Occupants()[Index(location)].value.possibleSpecialMoves else []
    {
      match ConvertToSquare(location)
      case None => []
      case Some(square) =>
        if square.occupant.Some? && square.occupant.value.man.color == color then square.PossibleSpecialMoves() else []
    }

    /** Scans the squares for one that is Mobile for the colour. */
    method HasLegalMoves(color: Color) returns (b: bool)
      requires Valid()
      ensures b <==> exists i :: 0 <= i < 64 && Mobile(squares[i], color)
    {
      for i := 0 to squares.Length
        invariant forall j :: 0 <= j < i ==> !Mobile(squares[j], color)
      {
        var square := squares[i];
        if (square.occupant.Some? && square.occupant.value.man.color == color && |square.PossibleMoves()| != 0)
           || |square.PossibleSpecialMoves()| != 0
        {
          return true;
        }
      }
      return false;
    }

    /** Appends the origin to the threat list of the square at `at`; fails when the origin is off the board. */
    method ThreatenSquare(at: Position, threatenFrom: Position) returns (o: Outcome)
      requires Valid() && OnBoard(at)
      modifies squares
      ensures o.Pass? <==> OnBoard(threatenFrom)
      ensures Occupants() == old(Occupants()) && Layout() == old(Layout())
      ensures o.Pass? ==> Threats() == old(Threats())[Index(at) := old(Threats())[Index(at)] + [threatenFrom]]
      ensures o.Fail? ==> Threats() == old(Threats())
    {
      if !OnBoard(threatenFrom) {
        return Fail("Threatening square is invalid");
      }
      var i := Index(at);
      squares[i] := squares[i].(threateningPositions := squares[i].threateningPositions + [threatenFrom]);
      assert Threats() == old(Threats())[i := old(Threats())[i] + [threatenFrom]];
      assert Occupants() == old(Occupants());
      assert Layout() == old(Layout());
      return Pass;
    }

    /** Empties the square and hands back its occupant; fails off the board. */
    method RemovePiece(from: Position) returns (r: Result<Option<Piece>>)
      requires Valid()
      modifies squares
      ensures r.Err? <==> !OnBoard(from)
      ensures r.Err? ==> r.reason == "Invalid square position"
      ensures r.Err? ==> squares[..] == old(squares[..])
      ensures r.Ok? ==> r.value == old(Occupants())[Index(from)]
      ensures r.Ok? ==> Occupants() == old(Occupants())[Index(from) := None]
      ensures Threats() == old(Threats())
    {
      if !OnBoard(from) {
        return Err("Invalid square position");
      }
      var i := Index(from);
      var piece := squares[i].occupant;
      squares[i] := squares[i].(occupant := None);
      assert Occupants() == old(Occupants())[i := None];
      assert Threats() == old(Threats());
      return Ok(piece);
    }

    /** Puts the piece on the square and hands back the one it displaced; fails off the board. */
    method PlacePiece(at: Position, pieceToPlace: Piece) returns (r: Result<Option<Piece>>)
      requires Valid()
      modifies squares
      ensures r.Err? <==> !OnBoard(at)
      ensures r.Err? ==> r.reason == "Invalid square position"
      ensures r.Err? ==> squares[..] == old(squares[..])
      ensures r.Ok? ==> r.value == old(Occupants())[Index(at)]
      ensures r.Ok? ==> Occupants() == old(Occupants())[Index(at) := Some(pieceToPlace)]
      ensures Threats() == old(Threats())
    {
      var removed := RemovePiece(at);
      if removed.Err? {
        return Err("Invalid square position");
      }
      var i := Index(at);
      ghost var mid := squares[..];
      squares[i] := squares[i].(occupant := Some(pieceToPlace));
      assert Occupants() == OccupantsOf(mid)[i := Some(pieceToPlace)];
      assert Threats() == ThreatsOf(mid);
      return Ok(removed.value);
    }

    /**
     * Moves the occupant of `from` to `to`. Off-board or empty origins fail without a change;
     * an off-board destination fails after the origin was emptied.
     */
    method PerformMove(from: Position, to: Position) returns (r: Result<Notation>)
      requires Valid()
      modifies squares
      ensures Threats() == old(Threats())
      ensures !OnBoard(from) || old(Occupants())[Index(from)].None? ==> r.Err? && squares[..] == old(squares[..])
      ensures OnBoard(from) && old(Occupants())[Index(from)].Some? && !OnBoard(to) ==>
        r.Err? && Occupants() == old(Occupants())[Index(from) := None]
      ensures r.Ok? <==> MoveOk(old(Occupants()), from, to)
      ensures r.Ok? ==> Occupants() == Moved(old(Occupants()), from, to)
      ensures Occupants() == AfterMove(old(Occupants()), from, to)
      ensures r.Err? ==> r.reason == MoveError(old(Occupants()), from, to)
      ensures r.Ok? ==> r.value == Notation(AlgebraicNotation(old(Occupants())[Index(from)].value.man.kind), Some(to))
    {
      var piece := RemovePiece(from);
      if piece.Err? {
        return Err("Invalid square position");
      }
      if piece.value.None? {
        assert squares[..] == old(squares[..]) by {
          forall i | 0 <= i < 64
            ensures squares[i] == old(squares[i])
          {
            assert squares[i].occupant == Occupants()[i];
            assert old(squares[i].occupant) == old(Occupants())[i];
            assert squares[i].threateningPositions == Threats()[i];
            assert old(squares[i].threateningPositions) == old(Threats())[i];
          }
        }
        return Err("No piece was found from removing position");
      }
      var placed := PlacePiece(to, piece.value.value);
      if placed.Err? {
        return Err("Invalid square position");
      }
      return Ok(Notation(AlgebraicNotation(piece.value.value.man.kind), Some(to)));
    }

    /**
     * The snapshot of the board for the player to move next: 'x' for an empty square, else the
     * first letter of the occupant's notation, lowered for White; a piece with an empty
     * notation makes it fail.
     */
    method CreateSnapshot(nextPlayer: Color) returns (r: Result<GameSnapshot>)
      requires Valid()
      ensures r.Ok? <==> forall i :: 0 <= i < 64 ==> SnapshotChar(Occupants()[i]).Ok?
      ensures r.Ok? ==> fresh(r.value) && fresh(r.value.snapshot) && r.value.Valid()
      ensures r.Ok? ==> r.value.playerNext == nextPlayer
      ensures r.Ok? ==> forall i :: 0 <= i < 64 ==> r.value.Get(i) == SnapshotChar(Occupants()[i]).value
    {
      var snapshot := new GameSnapshot(nextPlayer);
      for i := 0 to squares.Length
        invariant snapshot.Valid() && fresh(snapshot) && fresh(snapshot.snapshot) && snapshot.playerNext == nextPlayer
        invariant forall j :: 0 <= j < i ==> SnapshotChar(Occupants()[j]).Ok? && snapshot.Get(j) == SnapshotChar(Occupants()[j]).value
      {
        if !squares[i].IsOccupied() {
          snapshot.Set(i, 'x');
        } else {
          var p := squares[i].occupant.value;
          var pType := AlgebraicNotation(p.man.kind);
          if p.man.color == White {
            pType := seq(|pType|, j requires 0 <= j < |pType| => ToLower(pType[j]));
          }
          if |pType| == 0 {
            assert SnapshotChar(Occupants()[i]).Err?;
            return Err(IndexOutOfRange);
          }
          snapshot.Set(i, pType[0]);
        }
      }
      return Ok(snapshot);
    }
  }
}
