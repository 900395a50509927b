/**
 * ChessBoard.CalculateMoves, the ChessBoard constructor that runs it, and
 * ChessBoard.PerformMove(from, SpecialMove) (ChessMagic/Board/ChessBoard.cs).
 */
module Engine {
  import opened Wrappers
  import opened Positions
  import opened Entities
  import opened Squares
  import opened Board
  import opened Generation
  import opened Filtering
  import Pieces
  import Compaction
  import KingPiece = King
  import PawnPiece = Pawn

  /** The first square from i on, in scan order, holding a king of the colour. */
  function FirstKing(l: Layout, color: Color, i: int): (r: Option<int>)
    requires 0 <= i <= 64
    ensures r.Some? ==> i <= r.value < 64 && KingAt(l, r.value, color)
    ensures r.Some? ==> forall k :: i <= k < r.value ==> !KingAt(l, k, color)
    ensures r.None? <==> forall k :: i <= k < 64 ==> !KingAt(l, k, color)
    decreases 64 - i
  {
    if i == 64 then None
    else if KingAt(l, i, color) then Some(i)
    else FirstKing(l, color, i + 1)
  }

  /** The king square ChessBoard.FindKing reports is the first one. */
  lemma FoundKingIsFirst(l: Layout, color: Color, k: int)
    requires 0 <= k < 64 && KingAt(l, k, color) && forall i :: 0 <= i < k ==> !KingAt(l, i, color)
    ensures FirstKing(l, color, 0) == Some(k)
  {
  }

  /** The square of the first king of the colour. */
  function KingSquare(l: Layout, color: Color): Position
    requires FirstKing(l, color, 0).Some?
  {
    PosOf(FirstKing(l, color, 0).value)
  }

  /** The white value for White, the black one otherwise. */
  function Side<T>(color: Color, white: T, black: T): T
  {
    if color == White then white else black
  }

  /** Filtering the occupant of square i, against the king of its colour, raises nowhere. */
  predicate FilterOkAt(l: Layout, t: ThreatLists, i: int, o: Option<Piece>,
                       wk: Position, wt: seq<Position>, bk: Position, bt: seq<Position>)
    requires 0 <= i < 64
  {
    o.None? || FilterOk(l, t, PosOf(i), o.value, Side(o.value.man.color, wk, bk), Side(o.value.man.color, wt, bt))
  }

  /** o' is what filtering square i leaves of its occupant o: nothing for nothing, else the filtered piece. */
  ghost predicate FilteredAt(l: Layout, t: ThreatLists, i: int, o: Option<Piece>, o': Option<Piece>,
                             wk: Position, wt: seq<Position>, bk: Position, bt: seq<Position>)
    requires 0 <= i < 64
  {
    if o.None? then o'.None?
    else o'.Some? && Filtered(l, t, PosOf(i), Side(o.value.man.color, wk, bk), Side(o.value.man.color, wt, bt), o.value, o'.value)
  }

  /** Filtering raises on no square. */
  predicate AllFilterOk(l: Layout, t: ThreatLists, occ: seq<Option<Piece>>,
                        wk: Position, wt: seq<Position>, bk: Position, bt: seq<Position>)
    requires |occ| == 64
  {
    forall i :: 0 <= i < 64 ==> FilterOkAt(l, t, i, occ[i], wk, wt, bk, bt)
  }

  /** Every square of occ' holds what filtering the same square of occ leaves. */
  ghost predicate AllFiltered(l: Layout, t: ThreatLists, occ: seq<Option<Piece>>, occ': seq<Option<Piece>>,
                              wk: Position, wt: seq<Position>, bk: Position, bt: seq<Position>)
    requires |occ| == 64 && |occ'| == 64
  {
    forall i :: 0 <= i < 64 ==> FilteredAt(l, t, i, occ[i], occ'[i], wk, wt, bk, bt)
  }

  /** One step of the filter loop: an occupied square is filtered against the king of its colour. */
  method FilterSquare(board: ChessBoard, i: int, wk: Position, wt: seq<Position>, bk: Position, bt: seq<Position>) returns (r: Outcome)
    requires board.Valid() && 0 <= i < 64
    modifies board.squares
    ensures board.Layout() == old(board.Layout()) && board.Threats() == old(board.Threats())
    ensures r.Pass? <==> FilterOkAt(old(board.Layout()), old(board.Threats()), i, old(board.Occupants())[i], wk, wt, bk, bt)
    ensures r.Pass? ==> FilteredAt(old(board.Layout()), old(board.Threats()), i, old(board.Occupants())[i], board.Occupants()[i], wk, wt, bk, bt)
    ensures r.Pass? ==> forall k :: 0 <= k < 64 && k != i ==> board.Occupants()[k] == old(board.Occupants())[k]
  {
    var o := board.squares[i].occupant;
    assert o == board.Occupants()[i];
    if o.None? {
      return Pass;
    }
    var isWhite := o.value.man.color == White;
    r := FilterPossibleMoves(board, PosOf(i), if isWhite then wk else bk, if isWhite then wt else bt);
  }

  /**
   * The filter loop of CalculateMoves: every occupied square, in scan order, is filtered against
   * its colour's king square and that square's threat list. It stops at the first failure.
   */
  method FilterAll(board: ChessBoard, wk: Position, wt: seq<Position>, bk: Position, bt: seq<Position>) returns (r: Outcome)
    requires board.Valid()
    modifies board.squares
    ensures board.Layout() == old(board.Layout()) && board.Threats() == old(board.Threats())
    ensures r.Pass? <==> AllFilterOk(old(board.Layout()), old(board.Threats()), old(board.Occupants()), wk, wt, bk, bt)
    ensures r.Pass? ==> AllFiltered(old(board.Layout()), old(board.Threats()), old(board.Occupants()), board.Occupants(), wk, wt, bk, bt)
  {
    ghost var l := board.Layout();
    ghost var t := board.Threats();
    ghost var occ := board.Occupants();
    for i := 0 to 64
      invariant board.Layout() == l && board.Threats() == t
      invariant forall k :: 0 <= k < i ==> FilterOkAt(l, t, k, occ[k], wk, wt, bk, bt)
      invariant forall k :: 0 <= k < i ==> FilteredAt(l, t, k, occ[k], board.Occupants()[k], wk, wt, bk, bt)
      invariant forall k :: i <= k < 64 ==> board.Occupants()[k] == occ[k]
    {
      r := FilterSquare(board, i, wk, wt, bk, bt);
      if r.Fail? {
        return;
      }
    }
    r := Pass;
  }

  /**
   * CalculateMoves succeeds on a board: every square generates, both kings are found, and every
   * generated piece filters without raising against the threat lists the scan leaves.
   */
  predicate Calculable(l: Layout, t: ThreatLists, occ: seq<Option<Piece>>)
    requires |occ| == 64
  {
    && (forall i :: 0 <= i < 64 ==> Generates(l, i))
    && FirstKing(l, White, 0).Some? && FirstKing(l, Black, 0).Some?
    && AllFilterOk(l, ScanThreats(l, t, 64), ScanOccupants(l, occ, 64),
                   KingSquare(l, White), ScanThreats(l, t, 64)[Index(KingSquare(l, White))],
                   KingSquare(l, Black), ScanThreats(l, t, 64)[Index(KingSquare(l, Black))])
  }

  /** Every origin in a threat list the scan leaves is an occupied square of the board. */
  lemma ScanSourcesValid(l: Layout, t: ThreatLists, j: int)
    requires 0 <= j < 64
    ensures forall k :: 0 <= k < |ScanThreats(l, t, 64)[j]| ==> Pieces.ValidSource(l, ScanThreats(l, t, 64)[j][k])
  {
    forall k | 0 <= k < |ScanThreats(l, t, 64)[j]|
      ensures Pieces.ValidSource(l, ScanThreats(l, t, 64)[j][k])
    {
      ThreatOrigins(l, t, j, ScanThreats(l, t, 64)[j][k]);
    }
  }

  /** The castling filter never divides by zero on the castlings the king generates: each lands two files away. */
  lemma CastlingScanOk(l: Layout, t: ThreatLists, from: Position, king: Man)
    ensures KingPiece.CastleScan(KingPiece.CastlingMoves(l, from, king), KingPiece.CastleVerdicts(t, from)).Ok?
  {
    var s := KingPiece.CastlingMoves(l, from, king);
    var v := KingPiece.CastleVerdicts(t, from);
    forall j | 0 <= j < |s|
      ensures v(s[j]) != Compaction.Throw
    {
      KingPiece.CastlingMembers(l, from, king, s[j]);
    }
    KingPiece.CastleScanMeaning(s, v);
  }

  /**
   * Filtering a freshly generated piece raises nowhere when its moves are on the board, and its
   * king's checkers and its own square's threat origins are occupied squares.
   */
  lemma GeneratedFilters(l: Layout, t: ThreatLists, from: Position, p: Piece, king: Position, checkers: seq<Position>)
    requires OnBoard(from) && Moves(l, from, p.man).Ok?
    requires p.possibleMoves == Moves(l, from, p.man).value && p.possibleSpecialMoves == Specials(l, from, p.man)
    requires forall q :: q in p.possibleMoves ==> OnBoard(q)
    requires forall k :: 0 <= k < |checkers| ==> Pieces.ValidSource(l, checkers[k])
    requires forall k :: 0 <= k < |t[Index(from)]| ==> Pieces.ValidSource(l, t[Index(from)][k])
    ensures FilterOk(l, t, from, p, king, checkers)
  {
    if p.man.kind == King {
      CastlingScanOk(l, t, from, p.man);
    }
  }

  /**
   * CalculateMoves raises exactly when some square fails to generate or a king is missing: once
   * every square generates and both kings stand on the board, no filter raises, because every
   * threat origin the scan records is an occupied square and no generated castling lies on the
   * king's file. The occupants must be those the layout describes, as on any board.
   */
  lemma CalculableIff(l: Layout, t: ThreatLists, occ: seq<Option<Piece>>)
    requires |occ| == 64
    requires forall i :: 0 <= i < 64 ==> (occ[i].Some? <==> l[i].Some?) && (occ[i].Some? ==> occ[i].value.man == l[i].value)
    ensures Calculable(l, t, occ) <==>
      (forall i :: 0 <= i < 64 ==> Generates(l, i)) && FirstKing(l, White, 0).Some? && FirstKing(l, Black, 0).Some?
  {
    if (forall i :: 0 <= i < 64 ==> Generates(l, i)) && FirstKing(l, White, 0).Some? && FirstKing(l, Black, 0).Some? {
      var T := ScanThreats(l, t, 64);
      var wk, bk := KingSquare(l, White), KingSquare(l, Black);
      ScanSourcesValid(l, t, Index(wk));
      ScanSourcesValid(l, t, Index(bk));
      forall i | 0 <= i < 64
        ensures FilterOkAt(l, T, i, ScanOccupants(l, occ, 64)[i], wk, T[Index(wk)], bk, T[Index(bk)])
      {
        SquareFilters(l, t, occ, i, wk, bk);
      }
      assert AllFilterOk(l, T, ScanOccupants(l, occ, 64), wk, T[Index(wk)], bk, T[Index(bk)]);
    }
  }

  /** One square of CalculableIff: the generated occupant of square i filters without raising. */
  lemma SquareFilters(l: Layout, t: ThreatLists, occ: seq<Option<Piece>>, i: int, wk: Position, bk: Position)
    requires |occ| == 64 && 0 <= i < 64 && OnBoard(wk) && OnBoard(bk)
    requires (occ[i].Some? <==> l[i].Some?) && (occ[i].Some? ==> occ[i].value.man == l[i].value)
    requires Generates(l, i)
    requires forall k :: 0 <= k < |ScanThreats(l, t, 64)[Index(wk)]| ==> Pieces.ValidSource(l, ScanThreats(l, t, 64)[Index(wk)][k])
    requires forall k :: 0 <= k < |ScanThreats(l, t, 64)[Index(bk)]| ==> Pieces.ValidSource(l, ScanThreats(l, t, 64)[Index(bk)][k])
    ensures var T := ScanThreats(l, t, 64);
      FilterOkAt(l, T, i, ScanOccupants(l, occ, 64)[i], wk, T[Index(wk)], bk, T[Index(bk)])
  {
    var T := ScanThreats(l, t, 64);
    if occ[i].Some? {
      var from := PosOf(i);
      var p := Generated(l, from, occ[i].value);
      assert ScanOccupants(l, occ, 64)[i] == Some(p);
      ScanSourcesValid(l, t, i);
      assert T[Index(from)] == T[i];
      var color := p.man.color;
      GeneratedFilters(l, T, from, p, Side(color, wk, bk), Side(color, T[Index(wk)], T[Index(bk)]));
    }
  }

  /**
   * ChessBoard.CalculateMoves: the scan generates every square's moves and rebuilds the threat
   * lists; then, with both kings found, every occupied square's caches are filtered against its
   * king. On success the threat lists are ScanThreats and every occupant holds the filtered
   * moves of its generated caches.
   */
  method CalculateMoves(board: ChessBoard) returns (r: Outcome)
    requires board.Valid()
    modifies board.squares
    ensures board.Layout() == old(board.Layout())
    ensures r.Pass? <==> Calculable(old(board.Layout()), old(board.Threats()), old(board.Occupants()))
    ensures r.Pass? ==> board.Threats() == ScanThreats(old(board.Layout()), old(board.Threats()), 64)
    ensures r.Pass? ==>
      AllFiltered(old(board.Layout()), board.Threats(), ScanOccupants(old(board.Layout()), old(board.Occupants()), 64), board.Occupants(),
                  KingSquare(old(board.Layout()), White), board.Threats()[Index(KingSquare(old(board.Layout()), White))],
                  KingSquare(old(board.Layout()), Black), board.Threats()[Index(KingSquare(old(board.Layout()), Black))])
  {
    ghost var l := board.Layout();
    ghost var t0 := board.Threats();
    ghost var occ0 := board.Occupants();
    r := ScanBoard(board);
    if r.Fail? {
      return;
    }
    ghost var t := board.Threats();
    ghost var gen := board.Occupants();
    assert t == ScanThreats(l, t0, 64) && gen == ScanOccupants(l, occ0, 64);
    var w := board.FindKing(White);
    if w.Err? {
      return Fail(w.reason);
    }
    var b := board.FindKing(Black);
    if b.Err? {
      return Fail(b.reason);
    }
    FoundKingIsFirst(l, White, Index(w.value));
    FoundKingIsFirst(l, Black, Index(b.value));
    IndexInjective(w.value, KingSquare(l, White));
    IndexInjective(b.value, KingSquare(l, Black));
    var wt := board.squares[Index(w.value)].threateningPositions;
    var bt := board.squares[Index(b.value)].threateningPositions;
    assert wt == t[Index(w.value)] && bt == t[Index(b.value)];
    r := FilterAll(board, w.value, wt, b.value, bt);
  }

  /** A move stays cached on a square after CalculateMoves exactly when its piece generates it and it is legal. */
  lemma CachedMoves(l: Layout, t: ThreatLists, i: int, o: Option<Piece>, o': Option<Piece>,
                    wk: Position, wt: seq<Position>, bk: Position, bt: seq<Position>, x: Position)
    requires 0 <= i < 64 && o.Some? && Moves(l, PosOf(i), o.value.man).Ok?
    requires FilteredAt(l, t, i, GeneratedAt(l, PosOf(i), o), o', wk, wt, bk, bt)
    ensures o'.Some? && o'.value.man == o.value.man
    ensures x in o'.value.possibleMoves <==>
      && x in Moves(l, PosOf(i), o.value.man).value
      && MoveLegal(l, t, PosOf(i), o.value.man, Side(o.value.man.color, wk, bk), Side(o.value.man.color, wt, bt), x)
  {
    var p := Generated(l, PosOf(i), o.value);
    KeptMoves(l, t, PosOf(i), p.man, Side(p.man.color, wk, bk), Side(p.man.color, wt, bt), p.possibleMoves, o'.value.possibleMoves, x);
  }

  /** The squares InitializeBoard creates: each holds its initial occupant and no threats. */
  function InitialSquares(): (r: seq<Square>)
    ensures |r| == 64 && LayoutOf(r) == InitialLayout()
  {
    seq(64, i requires 0 <= i < 64 => NewSquare(InitialOccupant(i)))
  }

  /** Every square of the initial position generates: no pawn starts on its last rank. */
  lemma InitialGenerates(i: int)
    requires 0 <= i < 64
    ensures Generates(InitialLayout(), i)
  {
    var l := InitialLayout();
    InitialPosition(i);
    if l[i].Some? && l[i].value.kind == Pawn {
      assert 8 <= i < 16 || 48 <= i < 56;
      assert OnBoard(PawnPiece.Forward(PosOf(i), l[i].value.color));
    }
    GeneratesOnBoard(l, i);
  }

  /** The initial squares hold exactly the men of the initial layout. */
  lemma InitialAgrees(i: int)
    requires 0 <= i < 64
    ensures var occ, l := OccupantsOf(InitialSquares()), InitialLayout();
      (occ[i].Some? <==> l[i].Some?) && (occ[i].Some? ==> occ[i].value.man == l[i].value)
  {
    assert OccupantsOf(InitialSquares())[i] == InitialOccupant(i);
  }

  /** Both kings stand on the initial board: the white one on e1, the black one on e8. */
  lemma InitialKings()
    ensures KingAt(InitialLayout(), 4, White) && KingAt(InitialLayout(), 60, Black)
    ensures FirstKing(InitialLayout(), White, 0).Some? && FirstKing(InitialLayout(), Black, 0).Some?
  {
    var l := InitialLayout();
    InitialPosition(4);
    InitialPosition(60);
    assert KingAt(l, 4, White) && KingAt(l, 60, Black);
  }

  /** The initial position calculates: every square generates and both kings stand on the board. */
  lemma InitialCalculable()
    ensures Calculable(InitialLayout(), ThreatsOf(InitialSquares()), OccupantsOf(InitialSquares()))
  {
    forall i | 0 <= i < 64
      ensures Generates(InitialLayout(), i)
    {
      InitialGenerates(i);
    }
    forall i | 0 <= i < 64
      ensures var occ, l := OccupantsOf(InitialSquares()), InitialLayout();
        (occ[i].Some? <==> l[i].Some?) && (occ[i].Some? ==> occ[i].value.man == l[i].value)
    {
      InitialAgrees(i);
    }
    InitialKings();
    CalculableIff(InitialLayout(), ThreatsOf(InitialSquares()), OccupantsOf(InitialSquares()));
  }

  /**
   * The ChessBoard constructor: the initial position, then CalculateMoves. On success the threat
   * lists are the scan's over the initial position and every piece holds its generated moves
   * filtered against its own king.
   */
  method NewBoard() returns (board: ChessBoard, r: Outcome)
    ensures fresh(board) && fresh(board.squares) && board.Valid()
    ensures board.Layout() == InitialLayout()
    ensures r.Pass? && Calculable(InitialLayout(), ThreatsOf(InitialSquares()), OccupantsOf(InitialSquares()))
    ensures r.Pass? ==> board.Threats() == ScanThreats(InitialLayout(), ThreatsOf(InitialSquares()), 64)
    ensures r.Pass? ==>
      AllFiltered(InitialLayout(), board.Threats(), ScanOccupants(InitialLayout(), OccupantsOf(InitialSquares()), 64), board.Occupants(),
                  KingSquare(InitialLayout(), White), board.Threats()[Index(KingSquare(InitialLayout(), White))],
                  KingSquare(InitialLayout(), Black), board.Threats()[Index(KingSquare(InitialLayout(), Black))])
  {
    board := new ChessBoard();
    assert board.squares[..] == InitialSquares();
    InitialCalculable();
    r := CalculateMoves(board);
  }

  /** Whether the variant's PerformSpecialMove succeeds: the king's castling, the pawn's move, or Piece's default, which always does. */
  predicate SpecialOk(kind: PieceType, occupants: seq<Option<Piece>>, from: Position, move: SpecialMove)
    requires |occupants| == 64
  {
    match kind
    case King => KingPiece.CastlingOk(occupants, from, move)
    case Pawn => PawnPiece.PawnSpecialOk(occupants, from, move)
    case _ => true
  }

  /** The occupants after the variant's special move; Piece's default changes nothing. */
  function SpecialDone(kind: PieceType, occupants: seq<Option<Piece>>, from: Position, move: SpecialMove): seq<Option<Piece>>
    requires |occupants| == 64 && SpecialOk(kind, occupants, from, move)
  {
    match kind
    case King => KingPiece.Castled(occupants, from, move)
    case Pawn => PawnPiece.PawnSpecialDone(occupants, from, move)
    case _ => occupants
  }

  /**
   * The occupants after the variant's special move, whether it succeeds or raises; Piece's
   * default changes nothing.
   */
  function SpecialAfter(kind: PieceType, occupants: seq<Option<Piece>>, from: Position, move: SpecialMove): (r: seq<Option<Piece>>)
    requires |occupants| == 64
    ensures SpecialOk(kind, occupants, from, move) ==> r == SpecialDone(kind, occupants, from, move)
  {
    match kind
    case King => KingPiece.CastlingAfter(occupants, from, move)
    case Pawn => PawnPiece.PawnSpecialAfter(occupants, from, move)
    case _ => occupants
  }

  /** The message the variant's special move raises when it is not SpecialOk. */
  function SpecialError(kind: PieceType, occupants: seq<Option<Piece>>, from: Position, move: SpecialMove): string
    requires |occupants| == 64
  {
    match kind
    case King => KingPiece.CastlingError(occupants, from, move)
    case Pawn => PawnPiece.PawnSpecialError(occupants, from, move)
    case _ => ""
  }

  /** The position the variant's special move reports; Piece's default reports Invalid. */
  function SpecialTarget(kind: PieceType, from: Position, move: SpecialMove): Position
  {
    match kind
    case King => KingPiece.RookLanding(from, move.posTo)
    case Pawn => PawnPiece.PawnSpecialTarget(move)
    case _ => Invalid
  }

  /** Piece.PerformSpecialMove dispatched on the variant. */
  method PerformSpecialMove(board: ChessBoard, from: Position, kind: PieceType, move: SpecialMove) returns (r: Result<Position>)
    requires board.Valid()
    modifies board.squares
    ensures board.Threats() == old(board.Threats())
    ensures r.Ok? <==> SpecialOk(kind, old(board.Occupants()), from, move)
    ensures r.Ok? ==> r.value == SpecialTarget(kind, from, move) && board.Occupants() == SpecialDone(kind, old(board.Occupants()), from, move)
    ensures board.Occupants() == SpecialAfter(kind, old(board.Occupants()), from, move)
    ensures r.Err? ==> r.reason == SpecialError(kind, old(board.Occupants()), from, move)
  {
    match kind {
      case King =>
        r := KingPiece.PerformSpecialMove(board, from, move);
      case Pawn =>
        r := PawnPiece.PerformSpecialMove(board, from, move);
      case _ =>
        r := Ok(Invalid);
    }
  }

  /** The variant's SpecialMoveAlgebraicNotation as written: the king's, the pawn's, or Piece's empty one. */
  function SpecialNotation(kind: PieceType, from: Position, move: SpecialMove): Result<Notation>
  {
    match kind
    case King => KingPiece.SpecialMoveAlgebraicNotation(from, move)
    case Pawn => Ok(PawnPiece.SpecialMoveAlgebraicNotation(move))
    case _ => Ok(Notation("", None))
  }

  /** The same with the king's castling named after the side of its rook. */
  function CorrectedSpecialNotation(kind: PieceType, from: Position, move: SpecialMove): Result<Notation>
  {
    match kind
    case King => KingPiece.CastlingNotation(from, move)
    case Pawn => Ok(PawnPiece.SpecialMoveAlgebraicNotation(move))
    case _ => Ok(Notation("", None))
  }

  /**
   * ChessBoard.PerformMove(from, SpecialMove) as written: the occupant of from performs the move,
   * then the notation is asked of whatever occupies from afterwards, which raises when the
   * square is empty.
   */
  method PerformMoveAsWritten(board: ChessBoard, from: Position, move: SpecialMove) returns (r: Result<(Notation, Position)>)
    requires board.Valid()
    modifies board.squares
    ensures board.Threats() == old(board.Threats())
    ensures !OnBoard(from) || old(board.Occupants())[Index(from)].None? ==>
      r == Err("No piece was found") && board.squares[..] == old(board.squares[..])
    ensures OnBoard(from) && old(board.Occupants())[Index(from)].Some? ==>
      var kind := old(board.Occupants())[Index(from)].value.man.kind;
      && board.Occupants() == SpecialAfter(kind, old(board.Occupants()), from, move)
      && (!SpecialOk(kind, old(board.Occupants()), from, move) ==>
            r == Err(SpecialError(kind, old(board.Occupants()), from, move)))
      && (SpecialOk(kind, old(board.Occupants()), from, move) && board.Occupants()[Index(from)].None? ==>
            r == Err(NullReference))
      && (SpecialOk(kind, old(board.Occupants()), from, move) ==>
            board.Occupants() == SpecialDone(kind, old(board.Occupants()), from, move)
            && (r.Ok? <==>
                  && board.Occupants()[Index(from)].Some?
                  && SpecialNotation(board.Occupants()[Index(from)].value.man.kind, from, move).Ok?))
    ensures r.Ok? ==>
      && board.Occupants()[Index(from)].Some?
      && r.value.0 == SpecialNotation(board.Occupants()[Index(from)].value.man.kind, from, move).value
      && r.value.1 == SpecialTarget(old(board.Occupants())[Index(from)].value.man.kind, from, move)
  {
    var sq := board.ConvertToSquare(from);
    if sq.None? || !sq.value.IsOccupied() {
      return Err("No piece was found");
    }
    var kind := sq.value.occupant.value.man.kind;
    var target := PerformSpecialMove(board, from, kind, move);
    if target.Err? {
      return Err(target.reason);
    }
    var after := board.squares[Index(from)].occupant;
    assert after == board.Occupants()[Index(from)];
    if after.None? {
      return Err(NullReference);
    }
    var notation := SpecialNotation(after.value.man.kind, from, move);
    if notation.Err? {
      return Err(notation.reason);
    }
    return Ok((notation.value, target.value));
  }

  /**
   * A castling the king generates, once performed, leaves the king's square empty: the king
   * went two squares along the rank and its rook to the square between.
   */
  lemma CastlingEmptiesFrom(l: Layout, from: Position, king: Man, m: SpecialMove, occupants: seq<Option<Piece>>)
    requires m in KingPiece.CastlingMoves(l, from, king) && |occupants| == 64
    requires KingPiece.CastlingOk(occupants, from, m)
    ensures SpecialDone(King, occupants, from, m)[Index(from)].None?
  {
    KingPiece.CastlingMembers(l, from, king, m);
    var d := if m.posTo.x > from.x then 1 else -1;
    KingPiece.RookLandsOnCrossedSquare(from, d);
    var q := m.involvingPosition.value;
    if Index(q) == Index(from) {
      IndexInjective(q, from);
    }
  }

  /** A pawn's special move to another square leaves the pawn's square empty. */
  lemma PawnSpecialEmptiesFrom(occupants: seq<Option<Piece>>, from: Position, m: SpecialMove)
    requires |occupants| == 64 && PawnPiece.PawnSpecialOk(occupants, from, m) && m.posTo != from
    ensures SpecialDone(Pawn, occupants, from, m)[Index(from)].None?
  {
    if Index(m.posTo) == Index(from) {
      IndexInjective(m.posTo, from);
    }
  }

  /**
   * ChessBoard.PerformMove(from, SpecialMove) as it was evidently meant: the piece is taken
   * before it moves, so the notation is the moving piece's, with the castling named after the
   * side of its rook.
   */
  method PerformMove(board: ChessBoard, from: Position, move: SpecialMove) returns (r: Result<(Notation, Position)>)
    requires board.Valid()
    modifies board.squares
    ensures board.Threats() == old(board.Threats())
    ensures !OnBoard(from) || old(board.Occupants())[Index(from)].None? ==>
      r == Err("No piece was found") && board.squares[..] == old(board.squares[..])
    ensures OnBoard(from) && old(board.Occupants())[Index(from)].Some? ==>
      var kind := old(board.Occupants())[Index(from)].value.man.kind;
      && board.Occupants() == SpecialAfter(kind, old(board.Occupants()), from, move)
      && (r.Ok? <==> SpecialOk(kind, old(board.Occupants()), from, move) && CorrectedSpecialNotation(kind, from, move).Ok?)
      && (r.Err? ==>
            r.reason == if SpecialOk(kind, old(board.Occupants()), from, move) then CorrectedSpecialNotation(kind, from, move).reason
                        else SpecialError(kind, old(board.Occupants()), from, move))
      && (r.Ok? ==>
            && board.Occupants() == SpecialDone(kind, old(board.Occupants()), from, move)
            && r.value == (CorrectedSpecialNotation(kind, from, move).value, SpecialTarget(kind, from, move)))
  {
    var sq := board.ConvertToSquare(from);
    if sq.None? || !sq.value.IsOccupied() {
      return Err("No piece was found");
    }
    var kind := sq.value.occupant.value.man.kind;
    var target := PerformSpecialMove(board, from, kind, move);
    if target.Err? {
      return Err(target.reason);
    }
    var notation := CorrectedSpecialNotation(kind, from, move);
    if notation.Err? {
      return Err(notation.reason);
    }
    return Ok((notation.value, target.value));
  }
}
