/**
 * Move generation over the whole board: the variant dispatch of GetPossibleMoves and
 * GetPossibleSpecialMoves, Square.GeneratePossibleMoves (ChessMagic/Board/Square.cs), and the
 * scan half of ChessBoard.CalculateMoves, which clears each square's threat list in the same
 * row-major pass that fills the lists.
 */
module Generation {
  import opened Wrappers
  import opened Positions
  import opened Entities
  import opened Squares
  import opened Rays
  import opened Attacks
  import opened Board
  import RookPiece = Rook
  import BishopPiece = Bishop
  import QueenPiece = Queen
  import KnightPiece = Knight
  import KingPiece = King
  import PawnPiece = Pawn

  /** GetPossibleMoves of the man's variant. */
  function Moves(l: Layout, from: Position, man: Man): Result<seq<Position>>
  {
    match man.kind
    case Pawn => PawnPiece.PawnMoves(l, from, man.color)
    case Rook => Ok(RookPiece.RookMoves(l, from, man.color))
    case Bishop => Ok(BishopPiece.BishopMoves(l, from, man.color))
    case Queen => Ok(RookPiece.RookMoves(l, from, man.color) + BishopPiece.BishopMoves(l, from, man.color))
    case Knight => Ok(KnightPiece.KnightMoves(l, from, man.color))
    case King => Ok(KingPiece.KingMoves(l, from, man.color))
  }

  /** GetPossibleSpecialMoves of the man's variant: castling, the pawn's specials, else none. */
  function Specials(l: Layout, from: Position, man: Man): seq<SpecialMove>
  {
    match man.kind
    case Pawn => PawnPiece.PawnSpecials(l, from, man)
    case King => KingPiece.CastlingMoves(l, from, man)
    case _ => []
  }

  /** The squares that generating this man's moves threatens on its own: the pawn's captures. */
  function OwnThreats(l: Layout, from: Position, man: Man): seq<Position>
  {
    if man.kind == Pawn then PawnPiece.Captures(l, from, man.color) else []
  }

  /** Every generated move is a square of the board other than the mover's own. */
  lemma MovesLeaveSquare(l: Layout, from: Position, man: Man, q: Position)
    requires Moves(l, from, man).Ok? && q in Moves(l, from, man).value
    ensures OnBoard(q) && q != from
  {
    match man.kind
    case Pawn => PawnPiece.PawnMoveMembers(l, from, man.color, q);
    case Rook => RookPiece.RookMoveMembers(l, from, man.color, q);
    case Bishop => BishopPiece.BishopMoveMembers(l, from, man.color, q);
    case Queen => QueenPiece.QueenMoveMembers(l, from, man.color, q);
    case Knight => KnightPiece.KnightMoveMembers(l, from, man.color, q);
    case King => KingPiece.KingMoveMembers(l, from, man.color, q);
  }

  /** The squares a man threatens during its own generation are among its moves. */
  lemma OwnThreatsAreMoves(l: Layout, from: Position, man: Man, q: Position)
    requires Moves(l, from, man).Ok? && q in OwnThreats(l, from, man)
    ensures q in Moves(l, from, man).value
  {
    PawnPiece.PawnMoveMembers(l, from, man.color, q);
  }

  /** Piece.GetPossibleMoves dispatched on the variant; only the pawn's threatens squares. */
  method GetPossibleMoves(board: ChessBoard, from: Position, man: Man) returns (r: Result<seq<Position>>)
    requires board.Valid()
    modifies board.squares
    ensures r == Moves(old(board.Layout()), from, man)
    ensures board.Layout() == old(board.Layout()) && board.Occupants() == old(board.Occupants())
    ensures r.Ok? ==> board.Threats() == Threatened(old(board.Threats()), OwnThreats(old(board.Layout()), from, man), from)
  {
    var l := board.Layout();
    match man.kind {
      case Pawn =>
        r := PawnPiece.GetPossibleMoves(board, from, man.color);
      case Rook =>
        var moves := RookPiece.GetPossibleMoves(l, from, man.color);
        r := Ok(moves);
      case Bishop =>
        var moves := BishopPiece.GetPossibleMoves(l, from, man.color);
        r := Ok(moves);
      case Queen =>
        var moves := QueenPiece.GetPossibleMoves(l, from, man.color);
        r := Ok(moves);
      case Knight =>
        var moves := KnightPiece.GetPossibleMoves(l, from, man.color);
        r := Ok(moves);
      case King =>
        var moves := KingPiece.GetPossibleMoves(l, from, man.color);
        r := Ok(moves);
    }
  }

  /** Piece.GetPossibleSpecialMoves dispatched on the variant; the default is none. */
  method GetPossibleSpecialMoves(l: Layout, from: Position, man: Man) returns (specials: seq<SpecialMove>)
    ensures specials == Specials(l, from, man)
  {
    match man.kind {
      case Pawn =>
        specials := PawnPiece.GetPossibleSpecialMoves(l, from, man);
      case King =>
        specials := KingPiece.GetPossibleSpecialMoves(l, from, man);
      case _ =>
        specials := [];
    }
  }

  /** A piece whose caches hold what generation computes for it on from. */
  function Generated(l: Layout, from: Position, p: Piece): Piece
    requires Moves(l, from, p.man).Ok?
  {
    p.(possibleMoves := Moves(l, from, p.man).value, possibleSpecialMoves := Specials(l, from, p.man))
  }

  /** The occupant of from after its generation, when generation succeeds. */
  function GeneratedAt(l: Layout, from: Position, o: Option<Piece>): Option<Piece>
  {
    if o.Some? && Moves(l, from, o.value.man).Ok? then Some(Generated(l, from, o.value)) else o
  }

  /** What generating the occupant of from threatens on its own; nothing for an empty square. */
  function OwnThreatsAt(l: Layout, from: Position): seq<Position>
    requires OnBoard(from)
  {
    if l[Index(from)].None? then [] else OwnThreats(l, from, l[Index(from)].value)
  }

  /** The occupant of from, when there is one, generates without raising. */
  predicate GenerationOk(l: Layout, from: Position)
    requires OnBoard(from)
  {
    l[Index(from)].None? || Moves(l, from, l[Index(from)].value).Ok?
  }

  /** Stores generated caches in the piece on square i. */
  method CacheMoves(board: ChessBoard, i: int, moves: seq<Position>, specials: seq<SpecialMove>)
    requires board.Valid() && 0 <= i < 64 && board.Occupants()[i].Some?
    modifies board.squares
    ensures board.Occupants() ==
      old(board.Occupants())[i := Some(old(board.Occupants())[i].value.(possibleMoves := moves, possibleSpecialMoves := specials))]
    ensures board.Layout() == old(board.Layout()) && board.Threats() == old(board.Threats())
  {
    var sq := board.squares[i];
    board.squares[i] := sq.(occupant := Some(sq.occupant.value.(possibleMoves := moves, possibleSpecialMoves := specials)));
    assert board.Occupants() ==
      old(board.Occupants())[i := Some(old(board.Occupants())[i].value.(possibleMoves := moves, possibleSpecialMoves := specials))];
    assert board.Layout() == old(board.Layout());
    assert board.Threats() == old(board.Threats());
  }

  /**
   * Square.GeneratePossibleMoves: an empty square is left alone; an occupant caches its moves,
   * then its special moves, and fails when its move generation raises.
   */
  method GeneratePossibleMoves(board: ChessBoard, pos: Position) returns (r: Outcome)
    requires board.Valid() && OnBoard(pos)
    modifies board.squares
    ensures board.Layout() == old(board.Layout())
    ensures r.Pass? <==> GenerationOk(old(board.Layout()), pos)
    ensures r.Pass? ==>
      board.Occupants() == old(board.Occupants())[Index(pos) := GeneratedAt(old(board.Layout()), pos, old(board.Occupants())[Index(pos)])]
    ensures r.Pass? ==> board.Threats() == Threatened(old(board.Threats()), OwnThreatsAt(old(board.Layout()), pos), pos)
  {
    var i := Index(pos);
    var o := board.squares[i].occupant;
    assert o == board.Occupants()[i];
    if o.None? {
      assert board.Occupants() == old(board.Occupants())[i := o];
      return Pass;
    }
    assert board.Layout()[i] == Some(o.value.man);
    var moves := GetPossibleMoves(board, pos, o.value.man);
    if moves.Err? {
      return Fail(moves.reason);
    }
    var specials := GetPossibleSpecialMoves(board.Layout(), pos, o.value.man);
    CacheMoves(board, i, moves.value, specials);
    return Pass;
  }

  /** Every square every occupant would move to, with the pawn's captures first: what the scan threatens from it. */
  function Targets(l: Layout, i: int): seq<Position>
    requires 0 <= i < 64
  {
    if l[i].None? then []
    else match Moves(l, PosOf(i), l[i].value)
      case Err(_) => []
      case Ok(moves) => OwnThreats(l, PosOf(i), l[i].value) + moves
  }

  /** Square i generates without raising and every move it generates is on the board. */
  predicate Generates(l: Layout, i: int)
    requires 0 <= i < 64
  {
    l[i].None? ||
    (Moves(l, PosOf(i), l[i].value).Ok? && forall q :: q in Moves(l, PosOf(i), l[i].value).value ==> OnBoard(q))
  }

  /** Every square generates: no pawn stands on its last rank. */
  lemma GeneratesOnBoard(l: Layout, i: int)
    requires 0 <= i < 64 && (l[i].None? || Moves(l, PosOf(i), l[i].value).Ok?)
    ensures Generates(l, i)
  {
    if l[i].Some? {
      forall q | q in Moves(l, PosOf(i), l[i].value).value
        ensures OnBoard(q)
      {
        MovesLeaveSquare(l, PosOf(i), l[i].value, q);
      }
    }
  }

  /** One step of the scan: clear square i's list, then threaten from square i each of its targets. */
  function StepThreats(l: Layout, t: ThreatLists, i: int): ThreatLists
    requires 0 <= i < 64
  {
    Threatened(t[i := []], Targets(l, i), PosOf(i))
  }

  /** The threat lists after the scan has visited squares 0 .. n-1. */
  function ScanThreats(l: Layout, t: ThreatLists, n: int): ThreatLists
    requires 0 <= n <= 64
  {
    if n == 0 then t else StepThreats(l, ScanThreats(l, t, n - 1), n - 1)
  }

  /** A square never names its own square among its targets. */
  lemma NotOwnTarget(l: Layout, i: int)
    requires 0 <= i < 64
    ensures PosOf(i) !in Targets(l, i)
  {
    if l[i].Some? && Moves(l, PosOf(i), l[i].value).Ok? {
      var man := l[i].value;
      if PosOf(i) in Targets(l, i) {
        if PosOf(i) in OwnThreats(l, PosOf(i), man) {
          OwnThreatsAreMoves(l, PosOf(i), man, PosOf(i));
        }
        MovesLeaveSquare(l, PosOf(i), man, PosOf(i));
      }
    }
  }

  /** A target of square i is a move of its occupant. */
  lemma TargetsAreMoves(l: Layout, i: int, q: Position)
    requires 0 <= i < 64
    ensures q in Targets(l, i) <==>
      l[i].Some? && Moves(l, PosOf(i), l[i].value).Ok? && q in Moves(l, PosOf(i), l[i].value).value
  {
    if l[i].Some? && Moves(l, PosOf(i), l[i].value).Ok? && q in OwnThreats(l, PosOf(i), l[i].value) {
      OwnThreatsAreMoves(l, PosOf(i), l[i].value, q);
    }
  }

  /**
   * After the scan has visited squares 0 .. n-1, the list of a visited square j holds exactly the
   * squares after j (in scan order, up to n) that target j: whatever came before j was cleared
   * when the scan reached j.
   */
  lemma {:induction false} ScanOrigins(l: Layout, t: ThreatLists, n: int, j: int, p: Position)
    requires 0 <= j < n <= 64
    ensures p in ScanThreats(l, t, n)[j] <==> OnBoard(p) && j < Index(p) < n && PosOf(j) in Targets(l, Index(p))
  {
    var m := n - 1;
    var before := ScanThreats(l, t, m);
    var targets := Targets(l, m);
    assert ScanThreats(l, t, n) == Threatened(before[m := []], targets, PosOf(m));
    ThreatenedMembers(before[m := []], targets, PosOf(m), j, p);
    assert p == PosOf(m) && PosOf(j) in targets <==>
      OnBoard(p) && Index(p) == m && PosOf(j) in Targets(l, Index(p)) by {
      if OnBoard(p) {
        IndexInjective(p, PosOf(Index(p)));
      }
    }
    if j == m {
      NotOwnTarget(l, m);
      assert before[m := []][j] == [];
    } else {
      assert before[m := []][j] == before[j];
      ScanOrigins(l, t, m, j, p);
    }
  }

  /**
   * After CalculateMoves, origin p is in the threat list of square j exactly when p's index is
   * larger than j's and j is among the moves generated for the piece on p, whatever the lists
   * held before.
   */
  lemma ThreatOrigins(l: Layout, t: ThreatLists, j: int, p: Position)
    requires 0 <= j < 64
    ensures p in ScanThreats(l, t, 64)[j] <==>
      && OnBoard(p) && Index(p) > j && l[Index(p)].Some?
      && Moves(l, p, l[Index(p)].value).Ok? && PosOf(j) in Moves(l, p, l[Index(p)].value).value
  {
    ScanOrigins(l, t, 64, j, p);
    if OnBoard(p) {
      IndexInjective(p, PosOf(Index(p)));
      TargetsAreMoves(l, Index(p), PosOf(j));
    }
  }

  /** Empties square i's threat list. */
  method ClearThreats(board: ChessBoard, i: int)
    requires board.Valid() && 0 <= i < 64
    modifies board.squares
    ensures board.Threats() == old(board.Threats())[i := []]
    ensures board.Occupants() == old(board.Occupants()) && board.Layout() == old(board.Layout())
  {
    var sq := board.squares[i];
    board.squares[i] := sq.(threateningPositions := []);
    assert board.Threats() == old(board.Threats())[i := []];
    assert board.Occupants() == old(board.Occupants());
    assert board.Layout() == old(board.Layout());
  }

  /** Threatens from pos every square of moves in turn; fails at the first one off the board. */
  method ThreatenAll(board: ChessBoard, pos: Position, moves: seq<Position>) returns (r: Outcome)
    requires board.Valid() && OnBoard(pos)
    modifies board.squares
    ensures board.Occupants() == old(board.Occupants()) && board.Layout() == old(board.Layout())
    ensures r.Pass? <==> forall q :: q in moves ==> OnBoard(q)
    ensures r.Pass? ==> board.Threats() == Threatened(old(board.Threats()), moves, pos)
  {
    ghost var T := board.Threats();
    for j := 0 to |moves|
      invariant board.Occupants() == old(board.Occupants()) && board.Layout() == old(board.Layout())
      invariant forall k :: 0 <= k < j ==> OnBoard(moves[k])
      invariant board.Threats() == Threatened(T, moves[..j], pos)
    {
      var sqr := board.ConvertToSquare(moves[j]);
      if sqr.None? {
        return Fail("Invalid square");
      }
      var _ := board.ThreatenSquare(moves[j], pos);
      ThreatenedSplit(T, moves[..j], [moves[j]], pos);
      assert moves[..j + 1] == moves[..j] + [moves[j]];
    }
    assert moves[..|moves|] == moves;
    return Pass;
  }

  /** One visit of the scan: clear the list, generate, then threaten from here every cached move. */
  method ScanSquare(board: ChessBoard, pos: Position) returns (r: Outcome)
    requires board.Valid() && OnBoard(pos)
    modifies board.squares
    ensures board.Layout() == old(board.Layout())
    ensures r.Pass? <==> Generates(old(board.Layout()), Index(pos))
    ensures r.Pass? ==>
      board.Occupants() == old(board.Occupants())[Index(pos) := GeneratedAt(old(board.Layout()), pos, old(board.Occupants())[Index(pos)])]
    ensures r.Pass? ==> board.Threats() == StepThreats(old(board.Layout()), old(board.Threats()), Index(pos))
  {
    ghost var l := board.Layout();
    ghost var T := board.Threats();
    var i := Index(pos);
    assert PosOf(i) == pos by {
      IndexInjective(pos, PosOf(i));
    }
    ClearThreats(board, i);
    r := GeneratePossibleMoves(board, pos);
    if r.Fail? {
      return;
    }
    var o := board.squares[i].occupant;
    assert o == board.Occupants()[i];
    if o.None? {
      assert Targets(l, i) == [];
      return;
    }
    ghost var own := OwnThreats(l, pos, l[i].value);
    var moves := o.value.possibleMoves;
    assert moves == Moves(l, pos, l[i].value).value;
    assert Targets(l, i) == own + moves;
    r := ThreatenAll(board, pos, moves);
    ThreatenedSplit(T[i := []], own, moves, pos);
  }

  /** The occupants after the scan has visited squares 0 .. n-1: each visited one holds its generated caches. */
  function ScanOccupants(l: Layout, occ: seq<Option<Piece>>, n: int): (r: seq<Option<Piece>>)
    requires |occ| == 64
    ensures |r| == 64
  {
    seq(64, k requires 0 <= k < 64 => if k < n then GeneratedAt(l, PosOf(k), occ[k]) else occ[k])
  }

  /** Visiting square n stores its generated caches and leaves the rest as the scan had them. */
  lemma ScanOccupantsStep(l: Layout, occ: seq<Option<Piece>>, n: int)
    requires |occ| == 64 && 0 <= n < 64
    ensures ScanOccupants(l, occ, n)[n] == occ[n]
    ensures ScanOccupants(l, occ, n)[n := GeneratedAt(l, PosOf(n), occ[n])] == ScanOccupants(l, occ, n + 1)
  {
  }

  /** The inner loop of the scan: row y, square by square, from index 8*y to 8*y+7. */
  method ScanRow(board: ChessBoard, y: int, ghost l: Layout, ghost T: ThreatLists, ghost occ: seq<Option<Piece>>)
    returns (r: Outcome)
    requires board.Valid() && 0 <= y < 8 && |occ| == 64
    requires board.Layout() == l
    requires board.Threats() == ScanThreats(l, T, 8 * y)
    requires board.Occupants() == ScanOccupants(l, occ, 8 * y)
    modifies board.squares
    ensures board.Layout() == l
    ensures r.Pass? <==> forall k :: 8 * y <= k < 8 * (y + 1) ==> Generates(l, k)
    ensures r.Pass? ==> board.Threats() == ScanThreats(l, T, 8 * (y + 1))
    ensures r.Pass? ==> board.Occupants() == ScanOccupants(l, occ, 8 * (y + 1))
  {
    for x := 0 to 8
      invariant board.Layout() == l
      invariant forall k :: 8 * y <= k < 8 * y + x ==> Generates(l, k)
      invariant board.Threats() == ScanThreats(l, T, 8 * y + x)
      invariant board.Occupants() == ScanOccupants(l, occ, 8 * y + x)
    {
      var pos := Position(x, y);
      ghost var n := 8 * y + x;
      assert Index(pos) == n && PosOf(n) == pos by {
        IndexInjective(pos, PosOf(n));
      }
      ghost var before := board.Occupants();
      ScanOccupantsStep(l, occ, n);
      r := ScanSquare(board, pos);
      if r.Fail? {
        return;
      }
      assert board.Occupants() == before[n := GeneratedAt(l, pos, occ[n])];
      assert board.Threats() == ScanThreats(l, T, n + 1);
    }
    r := Pass;
  }

  /**
   * The generation half of ChessBoard.CalculateMoves: row by row, square by square, each square's
   * threat list is cleared, its occupant generates, and every generated move is threatened from
   * the square. It fails as soon as a square fails.
   */
  method ScanBoard(board: ChessBoard) returns (r: Outcome)
    requires board.Valid()
    modifies board.squares
    ensures board.Layout() == old(board.Layout())
    ensures r.Pass? <==> forall i :: 0 <= i < 64 ==> Generates(old(board.Layout()), i)
    ensures r.Pass? ==> board.Threats() == ScanThreats(old(board.Layout()), old(board.Threats()), 64)
    ensures r.Pass? ==> board.Occupants() == ScanOccupants(old(board.Layout()), old(board.Occupants()), 64)
  {
    ghost var l := board.Layout();
    ghost var T := board.Threats();
    ghost var occ := board.Occupants();
    assert ScanOccupants(l, occ, 0) == occ;
    for y := 0 to 8
      invariant board.Layout() == l
      invariant forall k :: 0 <= k < 8 * y ==> Generates(l, k)
      invariant board.Threats() == ScanThreats(l, T, 8 * y)
      invariant board.Occupants() == ScanOccupants(l, occ, 8 * y)
    {
      r := ScanRow(board, y, l, T, occ);
      if r.Fail? {
        return;
      }
    }
    r := Pass;
  }
}
