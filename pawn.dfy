/**
 * PawnPiece: the push and the two captures (which threaten their squares as they are found),
 * the double step and en passant, the special-move filter and the execution of a special move.
 * Its CanAttack is Attacks.PawnCanAttack.
 */
module Pawn {
  import opened Wrappers
  import opened Positions
  import opened Entities
  import opened Squares
  import opened Rays
  import opened Attacks
  import opened Compaction
  import opened Passes
  import opened Pieces
  import opened Board

  /** The square straight ahead of a pawn of this colour. */
  function Forward(from: Position, color: Color): Position
  {
    from.Offset(0, Direction(color))
  }

  /** The square holds a man of the other colour. */
  predicate Capturable(l: Layout, q: Position, color: Color)
  {
    OnBoard(q) && l[Index(q)].Some? && l[Index(q)].value.color != color
  }

  /** The capture dx files across from the forward square, when there is something to take there. */
  function Capture(l: Layout, from: Position, color: Color, dx: int): seq<Position>
  {
    var q := Forward(from, color).Offset(dx, 0);
    if Capturable(l, q, color) then [q] else []
  }

  /** The capture squares in the order GetPossibleMoves finds them: towards +x, then towards -x. */
  function Captures(l: Layout, from: Position, color: Color): seq<Position>
  {
    Capture(l, from, color, 1) + Capture(l, from, color, -1)
  }

  /**
   * PawnPiece.GetPossibleMoves: raises when the forward square is off the board (promotion is not
   * implemented) and when it threatens from an off-board origin; else the push when the forward
   * square is empty, then the captures.
   */
  function PawnMoves(l: Layout, from: Position, color: Color): Result<seq<Position>>
  {
    var f := Forward(from, color);
    if !OnBoard(f) then Err("Promotion square already reached")
    else if Captures(l, from, color) != [] && !OnBoard(from) then Err("Threatening square is invalid")
    else Ok((if l[Index(f)].None? then [f] else []) + Captures(l, from, color))
  }

  /** The forward square and the two capture squares, with the board read through ConvertToSquare. */
  method GetPossibleMoves(board: ChessBoard, from: Position, color: Color) returns (r: Result<seq<Position>>)
    requires board.Valid()
    modifies board.squares
    ensures r == PawnMoves(old(board.Layout()), from, color)
    ensures board.Layout() == old(board.Layout()) && board.Occupants() == old(board.Occupants())
    ensures r.Ok? ==> board.Threats() == Threatened(old(board.Threats()), Captures(old(board.Layout()), from, color), from)
  {
    ghost var l := board.Layout();
    ghost var T := board.Threats();
    var forward := from.Offset(0, Direction(color));
    var sqr := board.ConvertToSquare(forward);
    if sqr.None? {
      return Err("Promotion square already reached");
    }
    var moves := [];
    if !sqr.value.IsOccupied() {
      moves := [forward];
    }
    r := TryCapture(board, from, color, 1, moves);
    if r.Err? {
      return;
    }
    PawnMovesShape(l, from, color, moves);
    r := TryCapture(board, from, color, -1, r.value);
    if r.Ok? {
      ThreatenedSplit(T, Capture(l, from, color, 1), Capture(l, from, color, -1), from);
    }
  }

  /**
   * One capture test of GetPossibleMoves: a man of the other colour on the diagonal square is
   * added to the moves and threatened from the pawn's square.
   */
  method TryCapture(board: ChessBoard, from: Position, color: Color, dx: int, moves: seq<Position>)
    returns (r: Result<seq<Position>>)
    requires board.Valid()
    modifies board.squares
    ensures board.Layout() == old(board.Layout()) && board.Occupants() == old(board.Occupants())
    ensures r.Ok? <==> Capture(old(board.Layout()), from, color, dx) == [] || OnBoard(from)
    ensures r.Err? ==> r == Err("Threatening square is invalid")
    ensures r.Ok? ==> r.value == moves + Capture(old(board.Layout()), from, color, dx)
    ensures r.Ok? ==> board.Threats() == Threatened(old(board.Threats()), Capture(old(board.Layout()), from, color, dx), from)
  {
    var forward := from.Offset(0, Direction(color)).Offset(dx, 0);
    var sqr := board.ConvertToSquare(forward);
    if sqr.Some? && sqr.value.IsOccupied() && sqr.value.occupant.value.man.color != color {
      var o := board.ThreatenSquare(forward, from);
      if o.Fail? {
        return Err("Threatening square is invalid");
      }
      return Ok(moves + [forward]);
    }
    return Ok(moves);
  }

  /** With the forward square on the board, PawnMoves is the push followed by the two captures, or the error of the first capture threatened from off the board. */
  lemma PawnMovesShape(l: Layout, from: Position, color: Color, push: seq<Position>)
    requires OnBoard(from.Offset(0, Direction(color)))
    requires push == if l[Index(from.Offset(0, Direction(color)))].None? then [from.Offset(0, Direction(color))] else []
    ensures PawnMoves(l, from, color) ==
      if (Capture(l, from, color, 1) != [] || Capture(l, from, color, -1) != []) && !OnBoard(from)
      then Err("Threatening square is invalid")
      else Ok(push + Capture(l, from, color, 1) + Capture(l, from, color, -1))
  {
    var c1, c2 := Capture(l, from, color, 1), Capture(l, from, color, -1);
    assert Captures(l, from, color) == c1 + c2;
    assert push + (c1 + c2) == push + c1 + c2;
    assert c1 + c2 != [] <==> c1 != [] || c2 != [] by {
      assert |c1 + c2| == |c1| + |c2|;
    }
  }

  /** One capture holds q exactly when q is that diagonal square and holds a man of the other colour. */
  lemma CaptureMember(l: Layout, from: Position, color: Color, dx: int, q: Position)
    ensures q in Capture(l, from, color, dx) <==> q == from.Offset(dx, Direction(color)) && Capturable(l, q, color)
    ensures |Capture(l, from, color, dx)| <= 1
  {
    OffsetComposes(from, 0, Direction(color), dx, 0);
  }

  /**
   * A pawn moves exactly one square straight ahead onto an empty square, or one square ahead
   * diagonally onto a man of the other colour; it has at most three moves, all on the board and
   * away from its own square, and its captures are exactly the diagonal ones.
   */
  lemma PawnMoveMembers(l: Layout, from: Position, color: Color, q: Position)
    requires PawnMoves(l, from, color).Ok?
    ensures q in Captures(l, from, color) <==>
      q.y == from.y + Direction(color) && Abs(q.x - from.x) == 1 && Capturable(l, q, color)
    ensures q in PawnMoves(l, from, color).value <==>
      (q == Forward(from, color) && l[Index(q)].None?) || q in Captures(l, from, color)
    ensures q in PawnMoves(l, from, color).value ==> OnBoard(q) && q != from
    ensures |PawnMoves(l, from, color).value| <= 3
  {
    CaptureMember(l, from, color, 1, q);
    CaptureMember(l, from, color, -1, q);
    var f := Forward(from, color);
    var push: seq<Position> := if l[Index(f)].None? then [f] else [];
    assert PawnMoves(l, from, color).value == push + Captures(l, from, color);
    assert q in push <==> q == f && l[Index(q)].None?;
  }

  /**
   * As written, the pawn's attack test never names a square it captures on: it looks one square
   * diagonally behind it, the captures lie one square diagonally ahead.
   */
  lemma CapturesNotAttacked(l: Layout, from: Position, color: Color, q: Position)
    requires q in Captures(l, from, color)
    ensures !PawnCanAttack(color, from, q)
  {
  }

  /** The double step: two squares ahead, both on the board and empty, while FirstMove holds. */
  function DoubleStep(l: Layout, from: Position, man: Man): seq<SpecialMove>
  {
    var d := Direction(man.color);
    var forward := from.Offset(0, d * 2);
    var passed := forward.Offset(0, -d);
    if OnBoard(passed) && OnBoard(forward) && man.firstMove && l[Index(passed)].None? && l[Index(forward)].None?
    then [SpecialMove(Some(Invalid), forward)] else []
  }

  /** The square holds a pawn of the other colour whose double step has been recorded. */
  predicate DoubleMovedFoe(l: Layout, q: Position, color: Color)
  {
    OnBoard(q) && l[Index(q)].Some? && l[Index(q)].value.color != color
    && l[Index(q)].value.kind == Pawn && l[Index(q)].value.performedDoubleMove
  }

  /** En passant against the neighbour dx files away: land behind it, taking it. */
  function EnPassant(l: Layout, from: Position, color: Color, dx: int): seq<SpecialMove>
  {
    var side := from.Offset(dx, 0);
    if DoubleMovedFoe(l, side, color) then [SpecialMove(Some(side), side.Offset(0, Direction(color)))] else []
  }

  /** The special moves of a pawn: the double step, then en passant towards -x and towards +x. */
  function PawnSpecials(l: Layout, from: Position, man: Man): seq<SpecialMove>
  {
    DoubleStep(l, from, man) + EnPassant(l, from, man.color, -1) + EnPassant(l, from, man.color, 1)
  }

  /** PawnPiece.GetPossibleSpecialMoves, reading the squares ahead and beside the pawn. */
  method GetPossibleSpecialMoves(l: Layout, from: Position, man: Man) returns (moves: seq<SpecialMove>)
    ensures moves == PawnSpecials(l, from, man)
  {
    moves := [];
    var moveDirection := Direction(man.color);
    var forward := from.Offset(0, moveDirection * 2);
    var passed := forward.Offset(0, -moveDirection);
    if OnBoard(passed) && OnBoard(forward) && man.firstMove && l[Index(passed)].None? && l[Index(forward)].None? {
      moves := moves + [SpecialMove(Some(Invalid), forward)];
    }
    assert moves == DoubleStep(l, from, man);
    var left := from.Offset(-1, 0);
    var right := from.Offset(1, 0);
    if OnBoard(left) && l[Index(left)].Some? {
      var occupant := l[Index(left)].value;
      if occupant.color != man.color && occupant.kind == Pawn && occupant.performedDoubleMove {
        moves := moves + [SpecialMove(Some(left), left.Offset(0, moveDirection))];
      }
    }
    assert moves == DoubleStep(l, from, man) + EnPassant(l, from, man.color, -1);
    if OnBoard(right) && l[Index(right)].Some? {
      var occupant := l[Index(right)].value;
      if occupant.color != man.color && occupant.kind == Pawn && occupant.performedDoubleMove {
        moves := moves + [SpecialMove(Some(right), right.Offset(0, moveDirection))];
      }
    }
  }

  /**
   * A pawn's special moves are the double step, offered while FirstMove holds when both squares
   * ahead are on the board and empty, with the off-board involving position Invalid; and en
   * passant beside it against a pawn of the other colour that has double-stepped, landing behind
   * that pawn. There are at most three.
   */
  lemma PawnSpecialMembers(l: Layout, from: Position, man: Man, m: SpecialMove)
    ensures m in PawnSpecials(l, from, man) <==>
      || (&& m == SpecialMove(Some(Invalid), from.Offset(0, 2 * Direction(man.color)))
          && man.firstMove
          && OnBoard(from.Offset(0, Direction(man.color))) && OnBoard(m.posTo)
          && l[Index(from.Offset(0, Direction(man.color)))].None? && l[Index(m.posTo)].None?)
      || (&& m.involvingPosition.Some?
          && var side := m.involvingPosition.value;
          && side.y == from.y && Abs(side.x - from.x) == 1
          && m.posTo == side.Offset(0, Direction(man.color))
          && DoubleMovedFoe(l, side, man.color))
    ensures |PawnSpecials(l, from, man)| <= 3
  {
    DoubleStepMember(l, from, man, m);
    EnPassantSides(l, from, man.color, m);
    assert PawnSpecials(l, from, man) ==
      DoubleStep(l, from, man) + (EnPassant(l, from, man.color, -1) + EnPassant(l, from, man.color, 1));
  }

  /** En passant to either side: beside the pawn on its rank, behind a double-stepped foe; at most two. */
  lemma EnPassantSides(l: Layout, from: Position, color: Color, m: SpecialMove)
    ensures m in EnPassant(l, from, color, -1) + EnPassant(l, from, color, 1) <==>
      && m.involvingPosition.Some?
      && var side := m.involvingPosition.value;
      && side.y == from.y && Abs(side.x - from.x) == 1
      && m.posTo == side.Offset(0, Direction(color))
      && DoubleMovedFoe(l, side, color)
    ensures |EnPassant(l, from, color, -1) + EnPassant(l, from, color, 1)| <= 2
  {
    EnPassantMember(l, from, color, -1, m);
    EnPassantMember(l, from, color, 1, m);
    if m.involvingPosition.Some? {
      var side := m.involvingPosition.value;
      if side.y == from.y && Abs(side.x - from.x) == 1 {
        if side.x < from.x {
          assert side == from.Offset(-1, 0);
        } else {
          assert side == from.Offset(1, 0);
        }
      }
    }
  }

  /** The double step, when offered, is the one two squares ahead with Invalid as its involving position. */
  lemma DoubleStepMember(l: Layout, from: Position, man: Man, m: SpecialMove)
    ensures m in DoubleStep(l, from, man) <==>
      && m == SpecialMove(Some(Invalid), from.Offset(0, 2 * Direction(man.color)))
      && man.firstMove
      && OnBoard(from.Offset(0, Direction(man.color))) && OnBoard(m.posTo)
      && l[Index(from.Offset(0, Direction(man.color)))].None? && l[Index(m.posTo)].None?
    ensures |DoubleStep(l, from, man)| <= 1
  {
    var d := Direction(man.color);
    OffsetComposes(from, 0, d * 2, 0, -d);
    assert d * 2 == 2 * d && d * 2 + -d == d;
  }

  /** En passant towards dx, when offered, lands behind the double-stepped pawn beside it and involves that pawn. */
  lemma EnPassantMember(l: Layout, from: Position, color: Color, dx: int, m: SpecialMove)
    requires dx == 1 || dx == -1
    ensures m in EnPassant(l, from, color, dx) <==>
      && m.involvingPosition == Some(from.Offset(dx, 0))
      && m.posTo == from.Offset(dx, 0).Offset(0, Direction(color))
      && DoubleMovedFoe(l, from.Offset(dx, 0), color)
    ensures m in EnPassant(l, from, color, dx) ==> OnBoard(m.involvingPosition.value)
    ensures |EnPassant(l, from, color, dx)| <= 1
  {
  }

  /** The double step carries an involving position off the board. */
  lemma DoubleStepInvolvesInvalid(l: Layout, from: Position, man: Man, m: SpecialMove)
    requires m in DoubleStep(l, from, man)
    ensures m.involvingPosition.Some? && !OnBoard(m.involvingPosition.value)
  {
    InvalidSentinel();
  }

  /**
   * The pawn's check verdict of checker c on a special move: the checker's square is looked at
   * whatever the move (the test is (not-captured and not-blocked) or through-involving), so an
   * unusable one raises; the move is dropped when it neither lands on the checker nor blocks its
   * attack, or when the checker's attack passes the involved square with one piece cut through.
   */
  function SpecialCheckVerdict(l: Layout, king: Position, c: Position, m: SpecialMove): Verdict
  {
    if !ValidSource(l, c) then Throw
    else if (m.posTo != c && !AttacksThrough(l, c, king, Some(m.posTo), 0))
         || AttacksThrough(l, c, king, m.involvingPosition, 1) then Drop
    else Keep
  }

  /** The special move m answers the check given from c. */
  predicate AnswersSpecial(l: Layout, king: Position, c: Position, m: SpecialMove)
  {
    && ValidSource(l, c)
    && (m.posTo == c || AttacksThrough(l, c, king, Some(m.posTo), 0))
    && !AttacksThrough(l, c, king, m.involvingPosition, 1)
  }

  /** The special move m answers the checks of the first n checkers. */
  predicate BlocksSpecialChecks(l: Layout, king: Position, checkers: seq<Position>, n: int, m: SpecialMove)
    requires n <= |checkers|
  {
    forall j :: 0 <= j < n ==> AnswersSpecial(l, king, checkers[j], m)
  }

  /** The pawn's check stage raises on none of s: each checker a candidate reaches is on a usable square. */
  predicate SpecialChecksSafe(l: Layout, king: Position, checkers: seq<Position>, s: seq<SpecialMove>)
  {
    forall j, i :: 0 <= j < |checkers| && 0 <= i < |s| && BlocksSpecialChecks(l, king, checkers, j, s[i]) ==>
      ValidSource(l, checkers[j])
  }

  /** Kept by the pawn's check stage is answering the checks; raising is reaching an unusable checker square. */
  lemma SpecialCheckStageMeaning(l: Layout, king: Position, checkers: seq<Position>, s: seq<SpecialMove>,
                                 v: (Position, SpecialMove) -> Verdict)
    requires forall c, m :: v(c, m) == SpecialCheckVerdict(l, king, c, m)
    ensures forall n, x :: 0 <= n <= |checkers| ==>
      (KeptBy(checkers, n, v, x) <==> BlocksSpecialChecks(l, king, checkers, n, x))
    ensures SafePasses(s, checkers, |checkers|, v) <==> SpecialChecksSafe(l, king, checkers, s)
  {
    forall n, x | 0 <= n <= |checkers|
      ensures KeptBy(checkers, n, v, x) <==> BlocksSpecialChecks(l, king, checkers, n, x)
    {
      assert forall j :: 0 <= j < n ==> (v(checkers[j], x) == Keep <==> AnswersSpecial(l, king, checkers[j], x));
    }
  }

  /**
   * PawnPiece.RemoveInvalidSpecialMoves: the pawn's check stage, then the pin stage on the
   * destinations. It only swaps, and leaves in a[..k] exactly the special moves that answer every
   * check and whose destination keeps every pin.
   */
  method RemoveInvalidSpecialMoves(l: Layout, a: array<SpecialMove>, from: Position, threats: seq<Position>,
                                   king: Position, checkers: seq<Position>)
    returns (r: Result<nat>)
    modifies a
    ensures multiset(a[..]) == multiset(old(a[..]))
    ensures r.Ok? <==>
      SpecialChecksSafe(l, king, checkers, old(a[..])) && forall j :: 0 <= j < |threats| ==> ValidSource(l, threats[j])
    ensures r.Err? ==> r.reason == if SpecialChecksSafe(l, king, checkers, old(a[..])) then "Invalid threaten source" else NullReference
    ensures r.Ok? ==> r.value <= a.Length
    ensures r.Ok? ==> forall x ::
      multiset(a[..r.value])[x] ==
      if BlocksSpecialChecks(l, king, checkers, |checkers|, x) && RespectsPins(l, king, from, threats, x.posTo)
      then multiset(old(a[..]))[x] else 0
  {
    var v := (c: Position, m: SpecialMove) => SpecialCheckVerdict(l, king, c, m);
    SpecialCheckStageMeaning(l, king, checkers, a[..], v);
    assert a[..a.Length] == a[..];
    r := CheckStage(a, a.Length, checkers, v, NullReference);
    if r.Err? {
      return;
    }
    var k := r.value;
    var pins := (t: Position) => Pins(l, king, from, t);
    var keep := (t: Position, m: SpecialMove) => KeepsPin(l, king, t, m.posTo);
    r := PinStage(a, k, threats, (t: Position) => ValidSource(l, t), pins, keep);
    if r.Ok? {
      forall x
        ensures multiset(a[..r.value])[x] ==
          if BlocksSpecialChecks(l, king, checkers, |checkers|, x) && RespectsPins(l, king, from, threats, x.posTo)
          then multiset(old(a[..]))[x] else 0
      {
        assert PinKept(threats, |threats|, pins, keep, x) <==> RespectsPins(l, king, from, threats, x.posTo);
      }
    }
  }

  /** The piece with its double step recorded. */
  function MarkDoubleMove(o: Option<Piece>): (r: Option<Piece>)
    ensures r.Some? <==> o.Some?
    ensures r.Some? ==> r.value.man.performedDoubleMove
    ensures r.Some? ==> r.value == o.value.(man := o.value.man.(performedDoubleMove := true))
  {
    if o.Some? then Some(o.value.(man := o.value.man.(performedDoubleMove := true))) else None
  }

  /** PawnPiece.PerformSpecialMove succeeds: the board move succeeds and an involving position is on the board. */
  predicate PawnSpecialOk(occupants: seq<Option<Piece>>, from: Position, move: SpecialMove)
    requires |occupants| == 64
  {
    MoveOk(occupants, from, move.posTo) && (move.involvingPosition.Some? ==> OnBoard(move.involvingPosition.value))
  }

  /** What PawnPiece.PerformSpecialMove returns: the involving position, or Invalid without one. */
  function PawnSpecialTarget(move: SpecialMove): Position
  {
    if move.involvingPosition.Some? then move.involvingPosition.value else Invalid
  }

  /**
   * The occupants after a pawn's special move: the pawn on the destination and, with an involving
   * position, that square emptied; without one, the pawn marked as having made its double step.
   */
  function PawnSpecialDone(occupants: seq<Option<Piece>>, from: Position, move: SpecialMove): seq<Option<Piece>>
    requires |occupants| == 64 && PawnSpecialOk(occupants, from, move)
  {
    var moved := Moved(occupants, from, move.posTo);
    if move.involvingPosition.Some? then moved[Index(move.involvingPosition.value) := None]
    else moved[Index(move.posTo) := MarkDoubleMove(moved[Index(move.posTo)])]
  }

  /**
   * The occupants after PawnPiece.PerformSpecialMove, whether it succeeds or raises: a failing
   * board move leaves what ChessBoard.PerformMove left; an off-board involving position raises
   * after the pawn has moved.
   */
  function PawnSpecialAfter(occupants: seq<Option<Piece>>, from: Position, move: SpecialMove): (r: seq<Option<Piece>>)
    requires |occupants| == 64
    ensures PawnSpecialOk(occupants, from, move) ==> r == PawnSpecialDone(occupants, from, move)
    ensures !MoveOk(occupants, from, move.posTo) ==> r == AfterMove(occupants, from, move.posTo)
    ensures MoveOk(occupants, from, move.posTo) && !PawnSpecialOk(occupants, from, move) ==>
      r == Moved(occupants, from, move.posTo)
  {
    if !MoveOk(occupants, from, move.posTo) then AfterMove(occupants, from, move.posTo)
    else if !PawnSpecialOk(occupants, from, move) then Moved(occupants, from, move.posTo)
    else PawnSpecialDone(occupants, from, move)
  }

  /** The message PawnPiece.PerformSpecialMove raises when it is not PawnSpecialOk. */
  function PawnSpecialError(occupants: seq<Option<Piece>>, from: Position, move: SpecialMove): string
    requires |occupants| == 64
  {
    if !MoveOk(occupants, from, move.posTo) then MoveError(occupants, from, move.posTo) else "Invalid square position"
  }

  /**
   * A double step the pawn generates always raises, and leaves the pawn moved to its target:
   * its involving position is off the board, so RemovePiece raises after the board move.
   */
  lemma DoubleStepLeavesPawnMoved(l: Layout, from: Position, man: Man, m: SpecialMove, occupants: seq<Option<Piece>>)
    requires m in DoubleStep(l, from, man) && |occupants| == 64 && MoveOk(occupants, from, m.posTo)
    ensures !PawnSpecialOk(occupants, from, m)
    ensures PawnSpecialAfter(occupants, from, m) == Moved(occupants, from, m.posTo)
    ensures PawnSpecialError(occupants, from, m) == "Invalid square position"
  {
    DoubleStepInvolvesInvalid(l, from, man, m);
  }

  /**
   * PawnPiece.PerformSpecialMove: moves the pawn to the destination; with an involving position
   * it removes the piece there and returns that position, without one it records the double
   * step on the pawn and returns Invalid. A failing board move, or an off-board involving
   * position, raises.
   */
  method PerformSpecialMove(board: ChessBoard, from: Position, move: SpecialMove) returns (r: Result<Position>)
    requires board.Valid()
    modifies board.squares
    ensures board.Threats() == old(board.Threats())
    ensures r.Ok? <==> PawnSpecialOk(old(board.Occupants()), from, move)
    ensures r.Ok? ==> r.value == PawnSpecialTarget(move) && board.Occupants() == PawnSpecialDone(old(board.Occupants()), from, move)
    ensures board.Occupants() == PawnSpecialAfter(old(board.Occupants()), from, move)
    ensures r.Err? ==> r.reason == PawnSpecialError(old(board.Occupants()), from, move)
  {
    var performed := board.PerformMove(from, move.posTo);
    if performed.Err? {
      return Err(performed.reason);
    }
    if move.involvingPosition.Some? {
      var removed := board.RemovePiece(move.involvingPosition.value);
      if removed.Err? {
        return Err(removed.reason);
      }
      return Ok(move.involvingPosition.value);
    }
    ghost var moved := board.Occupants();
    var i := Index(move.posTo);
    var sq := board.squares[i];
    board.squares[i] := Square(MarkDoubleMove(sq.occupant), sq.threateningPositions);
    assert board.Occupants() == moved[i := MarkDoubleMove(moved[i])];
    assert board.Threats() == old(board.Threats());
    return Ok(Invalid);
  }

  /** PawnPiece.SpecialMoveAlgebraicNotation: the destination square alone. */
  function SpecialMoveAlgebraicNotation(move: SpecialMove): (r: Notation)
    ensures r.prefix == [] && r.square == Some(move.posTo)
  {
    Notation("", Some(move.posTo))
  }
}
