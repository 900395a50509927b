/**
 * Square.FilterPossibleMoves (ChessMagic/Board/Square.cs): the variant's RemoveInvalidMoves and
 * RemoveInvalidSpecialMoves run over the occupant's cached moves, then TrimMoves cuts both
 * caches to the counts they return. The king uses its own overrides, the pawn its own
 * special-move filter, every other piece Piece's defaults.
 */
module Filtering {
  import opened Wrappers
  import opened Positions
  import opened Entities
  import opened Squares
  import opened Compaction
  import opened Pieces
  import opened Board
  import KingPiece = King
  import PawnPiece = Pawn

  /**
   * The move filter keeps move x of the man on from: for the king, an on-board square nobody
   * threatens; for the others, a move answering every check and keeping every pin.
   */
  predicate MoveLegal(l: Layout, t: ThreatLists, from: Position, man: Man, king: Position, checkers: seq<Position>, x: Position)
    requires OnBoard(from)
  {
    if man.kind == King then OnBoard(x) && t[Index(x)] == []
    else BlocksChecks(l, king, checkers, |checkers|, x) && RespectsPins(l, king, from, t[Index(from)], x)
  }

  /**
   * The move filter does not raise on the cached moves s: for the king, every one is on the
   * board; for the others, no check reaches an unusable square and the square's threats all
   * come from occupied squares.
   */
  predicate MovesSafe(l: Layout, t: ThreatLists, from: Position, man: Man, king: Position, checkers: seq<Position>, s: seq<Position>)
    requires OnBoard(from)
  {
    if man.kind == King then forall j :: 0 <= j < |s| ==> OnBoard(s[j])
    else ChecksSafe(l, king, checkers, s) && forall j :: 0 <= j < |t[Index(from)]| ==> ValidSource(l, t[Index(from)][j])
  }

  /** s' holds the legal moves of s, each as often as in s, and nothing else. */
  ghost predicate MovesKept(l: Layout, t: ThreatLists, from: Position, man: Man, king: Position, checkers: seq<Position>,
                            s: seq<Position>, s': seq<Position>)
    requires OnBoard(from)
  {
    forall x :: multiset(s')[x] == if MoveLegal(l, t, from, man, king, checkers, x) then multiset(s)[x] else 0
  }

  /**
   * The special-move filter does not raise on s: the king's castling scan does not divide by
   * zero unless the king is threatened; the pawn's stages find usable squares; the default does
   * nothing.
   */
  predicate SpecialsSafe(l: Layout, t: ThreatLists, from: Position, man: Man, king: Position, checkers: seq<Position>, s: seq<SpecialMove>)
    requires OnBoard(from)
  {
    match man.kind
    case King => t[Index(from)] != [] || KingPiece.CastleScan(s, KingPiece.CastleVerdicts(t, from)).Ok?
    case Pawn =>
      PawnPiece.SpecialChecksSafe(l, king, checkers, s) && forall j :: 0 <= j < |t[Index(from)]| ==> ValidSource(l, t[Index(from)][j])
    case _ => true
  }

  /**
   * The special moves s' left of s: none for a threatened king, else the castling scan's result;
   * the pawn's specials that answer every check and keep every pin with their destination; for
   * the others all of s.
   */
  ghost predicate SpecialsKept(l: Layout, t: ThreatLists, from: Position, man: Man, king: Position, checkers: seq<Position>,
                               s: seq<SpecialMove>, s': seq<SpecialMove>)
    requires OnBoard(from)
  {
    match man.kind
    case King =>
      if t[Index(from)] != [] then s' == [] else KingPiece.CastleScan(s, KingPiece.CastleVerdicts(t, from)) == Ok(s')
    case Pawn =>
      forall x :: multiset(s')[x] ==
        if PawnPiece.BlocksSpecialChecks(l, king, checkers, |checkers|, x) && RespectsPins(l, king, from, t[Index(from)], x.posTo)
        then multiset(s)[x] else 0
    case _ => s' == s
  }

  /** Filtering piece p on from raises nowhere. */
  predicate FilterOk(l: Layout, t: ThreatLists, from: Position, p: Piece, king: Position, checkers: seq<Position>)
    requires OnBoard(from)
  {
    MovesSafe(l, t, from, p.man, king, checkers, p.possibleMoves)
    && SpecialsSafe(l, t, from, p.man, king, checkers, p.possibleSpecialMoves)
  }

  /** q is p after filtering on from: the same man, with the moves and special moves the filters keep. */
  ghost predicate Filtered(l: Layout, t: ThreatLists, from: Position, king: Position, checkers: seq<Position>, p: Piece, q: Piece)
    requires OnBoard(from)
  {
    && q.man == p.man
    && MovesKept(l, t, from, p.man, king, checkers, p.possibleMoves, q.possibleMoves)
    && SpecialsKept(l, t, from, p.man, king, checkers, p.possibleSpecialMoves, q.possibleSpecialMoves)
  }

  /** A move survives the filter exactly when it was cached and is legal. */
  lemma KeptMoves(l: Layout, t: ThreatLists, from: Position, man: Man, king: Position, checkers: seq<Position>,
                  s: seq<Position>, s': seq<Position>, x: Position)
    requires OnBoard(from) && MovesKept(l, t, from, man, king, checkers, s, s')
    ensures x in s' <==> x in s && MoveLegal(l, t, from, man, king, checkers, x)
  {
    assert multiset(s')[x] == if MoveLegal(l, t, from, man, king, checkers, x) then multiset(s)[x] else 0;
  }

  /** The filter keeps no more moves than were cached. */
  lemma KeptMovesFewer(l: Layout, t: ThreatLists, from: Position, man: Man, king: Position, checkers: seq<Position>,
                       s: seq<Position>, s': seq<Position>)
    requires OnBoard(from) && MovesKept(l, t, from, man, king, checkers, s, s')
    ensures multiset(s') <= multiset(s) && |s'| <= |s|
  {
    assert forall x :: multiset(s')[x] <= multiset(s)[x] by {
      forall x
        ensures multiset(s')[x] <= multiset(s)[x]
      {
        assert multiset(s')[x] == if MoveLegal(l, t, from, man, king, checkers, x) then multiset(s)[x] else 0;
      }
    }
    assert |multiset(s')| <= |multiset(s)| by {
      MultisetSizeBound(multiset(s'), multiset(s));
    }
  }

  /** A sub-multiset is no larger. */
  lemma {:induction false} MultisetSizeBound<T>(a: multiset<T>, b: multiset<T>)
    requires a <= b
    ensures |a| <= |b|
    decreases |b|
  {
    if a != multiset{} {
      var x :| x in a;
      MultisetSizeBound(a[x := a[x] - 1], b[x := b[x] - 1]);
      assert a == a[x := a[x] - 1] + multiset{x};
      assert b == b[x := b[x] - 1] + multiset{x};
    }
  }

  /** The variant's RemoveInvalidMoves: the king's override, else Piece's. */
  method RemoveInvalidMoves(board: ChessBoard, a: array<Position>, from: Position, man: Man, king: Position, checkers: seq<Position>)
    returns (r: Result<nat>)
    requires board.Valid() && OnBoard(from)
    modifies a
    ensures r.Ok? <==> MovesSafe(board.Layout(), board.Threats(), from, man, king, checkers, old(a[..]))
    ensures r.Ok? ==> r.value <= a.Length
    ensures r.Ok? ==> MovesKept(board.Layout(), board.Threats(), from, man, king, checkers, old(a[..]), a[..r.value])
  {
    if man.kind == King {
      r := KingPiece.RemoveInvalidMoves(board, a);
    } else {
      var t := board.Threats();
      r := Pieces.RemoveInvalidMoves(board.Layout(), a, from, t[Index(from)], king, checkers);
    }
  }

  /** The variant's RemoveInvalidSpecialMoves: the king's, the pawn's, else Piece's, which keeps them all. */
  method RemoveInvalidSpecialMoves(board: ChessBoard, a: array<SpecialMove>, from: Position, man: Man, king: Position, checkers: seq<Position>)
    returns (r: Result<nat>)
    requires board.Valid() && OnBoard(from)
    modifies a
    ensures r.Ok? <==> SpecialsSafe(board.Layout(), board.Threats(), from, man, king, checkers, old(a[..]))
    ensures r.Ok? ==> r.value <= a.Length
    ensures r.Ok? ==> SpecialsKept(board.Layout(), board.Threats(), from, man, king, checkers, old(a[..]), a[..r.value])
  {
    var t := board.Threats();
    match man.kind {
      case King =>
        r := KingPiece.RemoveInvalidSpecialMoves(board, a, from, t[Index(from)]);
      case Pawn =>
        r := PawnPiece.RemoveInvalidSpecialMoves(board.Layout(), a, from, t[Index(from)], king, checkers);
      case _ =>
        assert a[..a.Length] == a[..];
        r := Ok(a.Length);
    }
  }

  /**
   * Filters one piece's caches: both filters run over arrays holding them, and TrimMoves cuts
   * the arrays to the counts returned. The board is only read.
   */
  method FilterPiece(board: ChessBoard, from: Position, p: Piece, king: Position, checkers: seq<Position>) returns (r: Result<Piece>)
    requires board.Valid() && OnBoard(from)
    ensures r.Ok? <==> FilterOk(board.Layout(), board.Threats(), from, p, king, checkers)
    ensures r.Ok? ==> Filtered(board.Layout(), board.Threats(), from, king, checkers, p, r.value)
  {
    var moves := new Position[|p.possibleMoves|](k requires 0 <= k < |p.possibleMoves| => p.possibleMoves[k]);
    var specials := new SpecialMove[|p.possibleSpecialMoves|](k requires 0 <= k < |p.possibleSpecialMoves| => p.possibleSpecialMoves[k]);
    assert moves[..] == p.possibleMoves;
    assert specials[..] == p.possibleSpecialMoves;
    var moveCount := RemoveInvalidMoves(board, moves, from, p.man, king, checkers);
    if moveCount.Err? {
      return Err(moveCount.reason);
    }
    var specialCount := RemoveInvalidSpecialMoves(board, specials, from, p.man, king, checkers);
    if specialCount.Err? {
      return Err(specialCount.reason);
    }
    var moves', specials' := TrimMoves(moves, specials, moveCount.value, specialCount.value);
    return Ok(p.(possibleMoves := moves'[..], possibleSpecialMoves := specials'[..]));
  }

  /** Replaces the occupant of square i. */
  method SetOccupant(board: ChessBoard, i: int, p: Piece)
    requires board.Valid() && 0 <= i < 64 && board.Occupants()[i].Some? && board.Occupants()[i].value.man == p.man
    modifies board.squares
    ensures board.Occupants() == old(board.Occupants())[i := Some(p)]
    ensures board.Layout() == old(board.Layout()) && board.Threats() == old(board.Threats())
  {
    var sq := board.squares[i];
    board.squares[i] := sq.(occupant := Some(p));
    assert board.Occupants() == old(board.Occupants())[i := Some(p)];
    assert board.Layout() == old(board.Layout());
    assert board.Threats() == old(board.Threats());
  }

  /**
   * Square.FilterPossibleMoves: nothing for an empty square; otherwise the occupant's caches are
   * filtered against its own square's threats, the given king square and the squares that king is
   * threatened from, and the occupant is left with what the filters keep.
   */
  method FilterPossibleMoves(board: ChessBoard, pos: Position, king: Position, checkers: seq<Position>) returns (r: Outcome)
    requires board.Valid() && OnBoard(pos)
    modifies board.squares
    ensures board.Layout() == old(board.Layout()) && board.Threats() == old(board.Threats())
    ensures old(board.Occupants())[Index(pos)].None? ==> r.Pass? && board.Occupants() == old(board.Occupants())
    ensures old(board.Occupants())[Index(pos)].Some? ==>
      (r.Pass? <==> FilterOk(old(board.Layout()), old(board.Threats()), pos, old(board.Occupants())[Index(pos)].value, king, checkers))
    ensures r.Pass? ==> forall k :: 0 <= k < 64 && k != Index(pos) ==> board.Occupants()[k] == old(board.Occupants())[k]
    ensures r.Pass? && old(board.Occupants())[Index(pos)].Some? ==>
      && board.Occupants()[Index(pos)].Some?
      && Filtered(old(board.Layout()), old(board.Threats()), pos, king, checkers,
                  old(board.Occupants())[Index(pos)].value, board.Occupants()[Index(pos)].value)
  {
    var i := Index(pos);
    var o := board.squares[i].occupant;
    assert o == board.Occupants()[i];
    if o.None? {
      return Pass;
    }
    var q := FilterPiece(board, pos, o.value, king, checkers);
    if q.Err? {
      return Fail(q.reason);
    }
    SetOccupant(board, i, q.value);
    return Pass;
  }
}
