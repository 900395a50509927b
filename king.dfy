/**
 * KingPiece: the eight neighbours, castling generation, the two filters and the execution of
 * castling. Its CanAttack is Attacks.KingCanAttack.
 */
module King {
  import opened Wrappers
  import opened Positions
  import opened Entities
  import opened Squares
  import opened Rays
  import opened Compaction
  import opened Board

  /** The moves of a king on `from`: its free neighbours, in the order GetPossibleMoves tries them. */
  function KingMoves(l: Layout, from: Position, color: Color): seq<Position>
  {
    Leap(l, from, 1, 0, color) + Leap(l, from, 1, 1, color) + Leap(l, from, 0, 1, color) + Leap(l, from, -1, 1, color)
    + Leap(l, from, -1, 0, color) + Leap(l, from, -1, -1, color) + Leap(l, from, 0, -1, color) + Leap(l, from, 1, -1, color)
  }

  /** IsValidPosition: the square is on the board and empty or held by the other colour. */
  method IsValidPosition(position: Position, l: Layout, color: Color) returns (valid: bool)
    ensures valid == FreeFor(l, position, color)
  {
    valid := OnBoard(position) && (l[Index(position)].None? || l[Index(position)].value.color != color);
  }

  /** One line of GetPossibleMoves: the neighbour at (dx, dy) is added when IsValidPosition accepts it. */
  method AddIfValid(moves: seq<Position>, from: Position, dx: int, dy: int, l: Layout, color: Color)
    returns (moves': seq<Position>)
    ensures moves' == moves + Leap(l, from, dx, dy, color)
  {
    moves' := moves;
    var valid := IsValidPosition(from.Offset(dx, dy), l, color);
    if valid {
      moves' := moves' + [from.Offset(dx, dy)];
    }
  }

  /** KingPiece.GetPossibleMoves: IsValidPosition on each neighbour in turn. */
  method GetPossibleMoves(l: Layout, from: Position, color: Color) returns (moves: seq<Position>)
    ensures moves == KingMoves(l, from, color)
  {
    moves := [];
    moves := AddIfValid(moves, from, 1, 0, l, color);
    assert moves == Leap(l, from, 1, 0, color);
    moves := AddIfValid(moves, from, 1, 1, l, color);
    moves := AddIfValid(moves, from, 0, 1, l, color);
    moves := AddIfValid(moves, from, -1, 1, l, color);
    moves := AddIfValid(moves, from, -1, 0, l, color);
    moves := AddIfValid(moves, from, -1, -1, l, color);
    moves := AddIfValid(moves, from, 0, -1, l, color);
    moves := AddIfValid(moves, from, 1, -1, l, color);
  }

  /** The eight offsets of GetPossibleMoves are exactly the squares at distance one. */
  lemma NeighbourOffsets(from: Position, q: Position)
    ensures (q == from.Offset(1, 0)
      || q == from.Offset(1, 1)
      || q == from.Offset(0, 1)
      || q == from.Offset(-1, 1)
      || q == from.Offset(-1, 0)
      || q == from.Offset(-1, -1)
      || q == from.Offset(0, -1)
      || q == from.Offset(1, -1))
      <==> q != from && Abs(q.x - from.x) <= 1 && Abs(q.y - from.y) <= 1
  {
  }

  /** A king moves exactly to the free squares at distance one, and to at most eight of them. */
  lemma KingMoveMembers(l: Layout, from: Position, color: Color, q: Position)
    ensures q in KingMoves(l, from, color) <==>
      FreeFor(l, q, color) && q != from && Abs(q.x - from.x) <= 1 && Abs(q.y - from.y) <= 1
    ensures |KingMoves(l, from, color)| <= 8
  {
    NeighbourOffsets(from, q);
    LeapMember(l, from, 1, 0, color, q);
    LeapMember(l, from, 1, 1, color, q);
    LeapMember(l, from, 0, 1, color, q);
    LeapMember(l, from, -1, 1, color, q);
    LeapMember(l, from, -1, 0, color, q);
    LeapMember(l, from, -1, -1, color, q);
    LeapMember(l, from, 0, -1, color, q);
    LeapMember(l, from, 1, -1, color, q);
  }

  /** The king's own filter on a destination: off the board raises, a threatened square is dropped. */
  function MoveVerdict(threats: ThreatLists, m: Position): Verdict
  {
    if !OnBoard(m) then Throw
    else if threats[Index(m)] != [] then Drop
    else Keep
  }

  /**
   * KingPiece.RemoveInvalidMoves: drops every destination that something threatens, copying
   * the last candidate over it; an off-board destination raises.
   */
  method RemoveInvalidMoves(board: ChessBoard, a: array<Position>) returns (r: Result<nat>)
    requires board.Valid()
    modifies a
    ensures r.Ok? <==> forall j :: 0 <= j < a.Length ==> OnBoard(old(a[j]))
    ensures r.Err? ==> r.reason == "Invalid move"
    ensures r.Ok? ==> r.value <= a.Length
    ensures r.Ok? ==> forall x ::
      multiset(a[..r.value])[x] == if OnBoard(x) && board.Threats()[Index(x)] == [] then multiset(old(a[..]))[x] else 0
  {
    var T := board.Threats();
    assert old(a[..a.Length]) == old(a[..]);
    r := OverwriteCompact(a, a.Length, (m: Position) => MoveVerdict(T, m), "Invalid move");
    assert NoThrow(old(a[..]), (m: Position) => MoveVerdict(T, m)) <==> forall j :: 0 <= j < a.Length ==> OnBoard(old(a[j]));
  }

  /** The first occupied square met walking from p by (dx, 0), if any before the edge of the board. */
  function March(l: Layout, p: Position, dx: int): (r: Option<Position>)
    requires IsStep(dx, 0)
    ensures r.Some? ==> OnBoard(r.value) && l[Index(r.value)].Some?
    decreases if OnBoard(p) then Room(p, dx, 0) else 0
  {
    if !OnBoard(p) then None
    else if l[Index(p)].Some? then Some(p)
    else March(l, p.Offset(dx, 0), dx)
  }

  /** The march stops exactly on the first occupied square ahead of p. */
  lemma {:induction false} MarchMembers(l: Layout, p: Position, dx: int, q: Position)
    requires IsStep(dx, 0)
    ensures March(l, p, dx) == Some(q) <==>
      Ahead(p, q, dx, 0) && OnBoard(q) && l[Index(q)].Some? && ClearBetween(l, p, q, dx, 0)
    decreases if OnBoard(p) then Room(p, dx, 0) else 0
  {
    if q != p && Ahead(p, q, dx, 0) {
      SegmentStep(p, q, dx, 0);
      assert Segment(p, q, dx, 0)[0] == p;
    }
    if OnBoard(p) && l[Index(p)].None? {
      var p' := p.Offset(dx, 0);
      MarchMembers(l, p', dx, q);
      if q != p {
        if Ahead(p', q, dx, 0) {
          AheadBack(p, q, dx, 0);
        }
        if Ahead(p, q, dx, 0) {
          assert ClearBetween(l, p, q, dx, 0) <==> ClearBetween(l, p', q, dx, 0);
        }
      }
    }
  }

  /** Marching from the king's side: the first occupied square q on its rank in direction dx. */
  lemma MarchFinds(l: Layout, from: Position, dx: int, q: Position)
    requires IsStep(dx, 0)
    ensures March(l, from.Offset(dx, 0), dx) == Some(q) <==>
      && q != from && q.y == from.y && Sign(q.x - from.x) == dx
      && OnBoard(q) && l[Index(q)].Some? && Clear(l, from, q)
  {
    MarchMembers(l, from.Offset(dx, 0), dx, q);
    if Ahead(from.Offset(dx, 0), q, dx, 0) {
      AheadBack(from, q, dx, 0);
    }
    if q != from && q.y == from.y && Sign(q.x - from.x) == dx {
      AlignedStep(from, q);
    }
  }

  /** One march loop of GetPossibleSpecialMoves. */
  method MarchToPiece(l: Layout, from: Position, dx: int) returns (found: Option<Position>)
    requires IsStep(dx, 0)
    ensures found == March(l, from.Offset(dx, 0), dx)
  {
    var marchPos := from.Offset(dx, 0);
    while OnBoard(marchPos) && l[Index(marchPos)].None?
      invariant March(l, marchPos, dx) == March(l, from.Offset(dx, 0), dx)
      decreases Room(marchPos, dx, 0)
    {
      marchPos := marchPos.Offset(dx, 0);
    }
    found := if OnBoard(marchPos) then Some(marchPos) else None;
  }

  /** The rook of this colour that has not moved (as FirstMove has it). */
  predicate CastlingRook(m: Option<Man>, color: Color)
  {
    m.Some? && m.value.kind == Rook && m.value.color == color && m.value.firstMove
  }

  /** The castling candidate towards dx: the first piece that way, when it is an unmoved own rook. */
  function CastleToward(l: Layout, from: Position, dx: int, color: Color): seq<SpecialMove>
    requires IsStep(dx, 0)
  {
    match March(l, from.Offset(dx, 0), dx)
    case None => []
    case Some(q) =>
      if CastlingRook(l[Index(q)], color) then [SpecialMove(Some(q), from.Offset(2 * dx, 0))] else []
  }

  /** The castling moves of a king, towards +x first; none once FirstMove is false. */
  function CastlingMoves(l: Layout, from: Position, king: Man): seq<SpecialMove>
  {
    if !king.firstMove then []
    else CastleToward(l, from, 1, king.color) + CastleToward(l, from, -1, king.color)
  }

  /** KingPiece.GetPossibleSpecialMoves: a march each way along the rank. */
  method GetPossibleSpecialMoves(l: Layout, from: Position, king: Man) returns (moves: seq<SpecialMove>)
    ensures moves == CastlingMoves(l, from, king)
  {
    if !king.firstMove {
      return [];
    }
    moves := [];
    var found := MarchToPiece(l, from, 1);
    if found.Some? && l[Index(found.value)].value.kind == Rook {
      var occupant := l[Index(found.value)].value;
      if occupant.color == king.color && occupant.firstMove {
        moves := moves + [SpecialMove(found, from.Offset(2, 0))];
      }
    }
    found := MarchToPiece(l, from, -1);
    if found.Some? && l[Index(found.value)].value.kind == Rook {
      var occupant := l[Index(found.value)].value;
      if occupant.color == king.color && occupant.firstMove {
        moves := moves + [SpecialMove(found, from.Offset(-2, 0))];
      }
    }
  }

  /**
   * A king castles exactly with an unmoved rook of its colour that is the first piece along its
   * rank, every square between them being empty, landing two squares towards that rook; and
   * only while its own FirstMove holds.
   */
  lemma CastlingMembers(l: Layout, from: Position, king: Man, m: SpecialMove)
    ensures m in CastlingMoves(l, from, king) <==>
      && king.firstMove && m.involvingPosition.Some?
      && var q := m.involvingPosition.value;
      && q != from && q.y == from.y
      && m.posTo == from.Offset(2 * Sign(q.x - from.x), 0)
      && OnBoard(q) && CastlingRook(l[Index(q)], king.color) && Clear(l, from, q)
  {
    if m.involvingPosition.Some? {
      var q := m.involvingPosition.value;
      MarchFinds(l, from, 1, q);
      MarchFinds(l, from, -1, q);
    }
  }

  /**
   * The squares the special-move filter inspects for a castling towards pos: from pos back
   * towards the king, stepping dx, up to but not including the king's square or the edge of
   * the board. It is true when one of them is threatened.
   */
  function Corridor(threats: ThreatLists, from: Position, pos: Position, dx: int): bool
    requires IsStep(dx, 0)
    decreases if OnBoard(pos) then Room(pos, dx, 0) else 0
  {
    OnBoard(pos) && pos != from && (threats[Index(pos)] != [] || Corridor(threats, from, pos.Offset(dx, 0), dx))
  }

  /** The inner while-loop of RemoveInvalidSpecialMoves. */
  method WalkCorridor(board: ChessBoard, from: Position, posTo: Position, xOffset: int) returns (threatened: bool)
    requires board.Valid() && IsStep(xOffset, 0)
    ensures threatened == Corridor(board.Threats(), from, posTo, xOffset)
  {
    ghost var T := board.Threats();
    var pos := posTo;
    var square := board.ConvertToSquare(pos);
    threatened := false;
    while square.Some? && pos != from && !threatened
      invariant square == board.ConvertToSquare(pos)
      invariant threatened ==> Corridor(T, from, posTo, xOffset)
      invariant !threatened ==> Corridor(T, from, posTo, xOffset) == Corridor(T, from, pos, xOffset)
      decreases if OnBoard(pos) then Room(pos, xOffset, 0) else 0
    {
      assert square.value.threateningPositions == T[Index(pos)];
      pos := pos.Offset(xOffset, 0);
      if |square.value.threateningPositions| > 0 {
        threatened := true;
      }
      square := board.ConvertToSquare(pos);
    }
  }

  /**
   * The filter's verdict on a castling move: raises (division by zero) when the destination is
   * on the king's file, dropped when the corridor is threatened.
   */
  function CastleVerdict(threats: ThreatLists, from: Position, m: SpecialMove): Verdict
  {
    if m.posTo.x == from.x then Throw
    else if Corridor(threats, from, m.posTo, Sign(from.x - m.posTo.x)) then Drop
    else Keep
  }

  /** The filter's verdicts for a king on from, as a function of the candidate. */
  function CastleVerdicts(threats: ThreatLists, from: Position): SpecialMove -> Verdict
  {
    (m: SpecialMove) => CastleVerdict(threats, from, m)
  }

  /**
   * For a castling two squares along the rank, the filter inspects exactly the destination and
   * the square the king crosses: the move is dropped iff the destination is on the board and one
   * of the two is threatened (an off-board destination is kept).
   */
  lemma CastlingVerdict(threats: ThreatLists, from: Position, d: int, involving: Option<Position>)
    requires OnBoard(from) && (d == 1 || d == -1)
    ensures CastleVerdict(threats, from, SpecialMove(involving, from.Offset(2 * d, 0))) ==
      if OnBoard(from.Offset(2 * d, 0)) &&
         (threats[Index(from.Offset(2 * d, 0))] != [] || threats[Index(from.Offset(d, 0))] != [])
      then Drop else Keep
  {
    var to, mid := from.Offset(2 * d, 0), from.Offset(d, 0);
    assert Sign(from.x - to.x) == -d;
    assert to.Offset(-d, 0) == mid && mid.Offset(-d, 0) == from;
    assert !Corridor(threats, from, from, -d);
    if OnBoard(to) {
      assert OnBoard(mid);
      assert Corridor(threats, from, mid, -d) <==> threats[Index(mid)] != [];
      assert Corridor(threats, from, to, -d) <==> threats[Index(to)] != [] || Corridor(threats, from, mid, -d);
    }
  }

  /**
   * What RemoveInvalidSpecialMoves does to the candidates s: it only ever tests s[0]; a
   * dropped s[0] is replaced by the last candidate, which shortens the list by one.
   */
  function CastleScan(s: seq<SpecialMove>, v: SpecialMove -> Verdict): Result<seq<SpecialMove>>
    decreases |s|
  {
    if s == [] then Ok([])
    else match v(s[0])
      case Throw => Err(DivideByZero)
      case Keep => Ok(s)
      case Drop => CastleScan(s[0 := s[|s| - 1]][..|s| - 1], v)
  }

  /**
   * The scan fails only on a raising candidate and succeeds when none raises; a success is
   * either empty, every candidate being dropped, or keeps s unchanged when s[0] passes, or
   * else ends on some s[j] that passes in front of s[1..j], all of s[0] and s[j+1..] dropped.
   * So once s[0] passes, no other candidate is examined.
   */
  lemma {:induction false} CastleScanMeaning(s: seq<SpecialMove>, v: SpecialMove -> Verdict)
    ensures CastleScan(s, v).Err? ==> exists j :: 0 <= j < |s| && v(s[j]) == Throw
    ensures NoThrow(s, v) ==> CastleScan(s, v).Ok?
    ensures CastleScan(s, v) == Ok([]) ==> forall j :: 0 <= j < |s| ==> v(s[j]) == Drop
    ensures CastleScan(s, v).Ok? && CastleScan(s, v).value != [] ==>
      var r := CastleScan(s, v).value;
      && |r| <= |s| && v(r[0]) == Keep && r[1..] == s[1..|r|]
      && ((r == s && v(s[0]) == Keep) || (v(s[0]) == Drop && |r| < |s| && r[0] == s[|r|]))
      && forall j :: |r| < j < |s| ==> v(s[j]) == Drop
    decreases |s|
  {
    if s != [] && v(s[0]) == Drop {
      var n := |s|;
      var t := s[0 := s[n - 1]][..n - 1];
      CastleScanMeaning(t, v);
      assert forall j :: 1 <= j < n - 1 ==> t[j] == s[j];
      if n > 1 {
        assert t[0] == s[n - 1];
      }
      if CastleScan(t, v).Err? {
        var j :| 0 <= j < |t| && v(t[j]) == Throw;
        if j == 0 {
          assert v(s[n - 1]) == Throw;
        } else {
          assert v(s[j]) == Throw;
        }
      }
      if NoThrow(s, v) {
        forall j | 0 <= j < |t|
          ensures v(t[j]) != Throw
        {
          if j == 0 {
            assert t[0] == s[n - 1];
          } else {
            assert t[j] == s[j];
          }
        }
      }
    }
  }

  /**
   * KingPiece.RemoveInvalidSpecialMoves: nothing survives when the king itself is threatened;
   * otherwise the loop keeps testing element [0] and overwrites a[i] when it is dropped.
   */
  method RemoveInvalidSpecialMoves(board: ChessBoard, a: array<SpecialMove>, from: Position, ownThreats: seq<Position>)
    returns (r: Result<nat>)
    requires board.Valid()
    modifies a
    ensures ownThreats != [] ==> r == Ok(0) && a[..] == old(a[..])
    ensures ownThreats == [] ==>
      var T := board.Threats();
      var scan := CastleScan(old(a[..]), CastleVerdicts(T, from));
      && (r.Ok? <==> scan.Ok?)
      && (r.Ok? ==> r.value <= a.Length && a[..r.value] == scan.value)
    ensures r.Err? ==> r.reason == DivideByZero
  {
    if |ownThreats| > 0 {
      return Ok(0);
    }
    ghost var T := board.Threats();
    ghost var v := CastleVerdicts(T, from);
    var k := a.Length;
    var i := 0;
    assert a[..k] == old(a[..]);
    while i < k
      invariant 0 <= i <= k <= a.Length
      invariant i == 0 ==> CastleScan(a[..k], v) == CastleScan(old(a[..]), v)
      invariant i > 0 ==> v(a[0]) == Keep && CastleScan(old(a[..]), v) == Ok(a[..k])
      decreases k - i
    {
      var pos := a[0].posTo;
      if pos.x == from.x {
        return Err(DivideByZero);
      }
      var xOffset := Sign(from.x - pos.x);
      var threatened := WalkCorridor(board, from, pos, xOffset);
      if threatened {
        ghost var s := a[..k];
        k := k - 1;
        a[i] := a[k];
        assert a[..k] == s[0 := s[k]][..k];
      } else {
        i := i + 1;
      }
    }
    if k == 0 {
      assert a[..k] == [];
    }
    return Ok(k);
  }

  /** Where PerformSpecialMove puts the rook: one square back from the king's destination towards the king. */
  function RookLanding(from: Position, posTo: Position): Position
  {
    posTo.Offset(Sign(from.x - posTo.x), 0)
  }

  /** For a castling two squares along the rank the rook lands on the square the king crossed. */
  lemma RookLandsOnCrossedSquare(from: Position, d: int)
    requires d == 1 || d == -1
    ensures RookLanding(from, from.Offset(2 * d, 0)) == from.Offset(d, 0)
  {
  }

  /**
   * KingPiece.PerformSpecialMove succeeds: there is an involving position, the king's board move
   * succeeds, the destination is off the king's file, and the involved piece's move succeeds.
   */
  predicate CastlingOk(occupants: seq<Option<Piece>>, from: Position, move: SpecialMove)
    requires |occupants| == 64
  {
    && move.involvingPosition.Some? && MoveOk(occupants, from, move.posTo) && move.posTo.x != from.x
    && MoveOk(Moved(occupants, from, move.posTo), move.involvingPosition.value, RookLanding(from, move.posTo))
  }

  /** The occupants after a castling: the king moved to the destination, then the involved piece to RookLanding. */
  function Castled(occupants: seq<Option<Piece>>, from: Position, move: SpecialMove): seq<Option<Piece>>
    requires |occupants| == 64 && CastlingOk(occupants, from, move)
  {
    Moved(Moved(occupants, from, move.posTo), move.involvingPosition.value, RookLanding(from, move.posTo))
  }

  /**
   * The occupants after KingPiece.PerformSpecialMove, whether it succeeds or raises: nothing
   * changes without an involving position; a failing king move leaves what ChessBoard.PerformMove
   * left; a destination on the king's file raises with the king already moved; otherwise the
   * involved piece's move follows the king's, and what it leaves when it fails is ChessBoard.PerformMove's.
   */
  function CastlingAfter(occupants: seq<Option<Piece>>, from: Position, move: SpecialMove): (r: seq<Option<Piece>>)
    requires |occupants| == 64
    ensures |r| == 64
    ensures CastlingOk(occupants, from, move) ==> r == Castled(occupants, from, move)
    ensures move.involvingPosition.None? ==> r == occupants
    ensures move.involvingPosition.Some? && !MoveOk(occupants, from, move.posTo) ==> r == AfterMove(occupants, from, move.posTo)
    ensures move.involvingPosition.Some? && MoveOk(occupants, from, move.posTo) && move.posTo.x == from.x ==>
      r == Moved(occupants, from, move.posTo)
    ensures move.involvingPosition.Some? && MoveOk(occupants, from, move.posTo) && move.posTo.x != from.x ==>
      r == AfterMove(Moved(occupants, from, move.posTo), move.involvingPosition.value, RookLanding(from, move.posTo))
    ensures move.involvingPosition.Some? && MoveOk(occupants, from, move.posTo) && move.involvingPosition.value != move.posTo ==>
      r[Index(move.posTo)] == occupants[Index(from)]
  {
    if move.involvingPosition.None? then occupants
    else if !MoveOk(occupants, from, move.posTo) then AfterMove(occupants, from, move.posTo)
    else if move.posTo.x == from.x then Moved(occupants, from, move.posTo)
    else AfterMove(Moved(occupants, from, move.posTo), move.involvingPosition.value, RookLanding(from, move.posTo))
  }

  /** The message KingPiece.PerformSpecialMove raises when it is not CastlingOk. */
  function CastlingError(occupants: seq<Option<Piece>>, from: Position, move: SpecialMove): string
    requires |occupants| == 64
  {
    if move.involvingPosition.None? then "Invalid special move for king"
    else if !MoveOk(occupants, from, move.posTo) then MoveError(occupants, from, move.posTo)
    else if move.posTo.x == from.x then DivideByZero
    else MoveError(Moved(occupants, from, move.posTo), move.involvingPosition.value, RookLanding(from, move.posTo))
  }

  /**
   * KingPiece.PerformSpecialMove: moves the king to the destination, then the involved piece to
   * RookLanding. It fails on a missing involving position, when either board move fails, and on
   * a destination on the king's file (division by zero).
   */
  method PerformSpecialMove(board: ChessBoard, from: Position, move: SpecialMove) returns (r: Result<Position>)
    requires board.Valid()
    modifies board.squares
    ensures board.Threats() == old(board.Threats())
    ensures move.involvingPosition.None? ==> r.Err? && board.squares[..] == old(board.squares[..])
    ensures r.Ok? <==> CastlingOk(old(board.Occupants()), from, move)
    ensures r.Ok? ==> r.value == RookLanding(from, move.posTo) && board.Occupants() == Castled(old(board.Occupants()), from, move)
    ensures board.Occupants() == CastlingAfter(old(board.Occupants()), from, move)
    ensures r.Err? ==> r.reason == CastlingError(old(board.Occupants()), from, move)
  {
    if move.involvingPosition.None? {
      return Err("Invalid special move for king");
    }
    var first := board.PerformMove(from, move.posTo);
    if first.Err? {
      return Err(first.reason);
    }
    if move.posTo.x == from.x {
      return Err(DivideByZero);
    }
    var xOffset := Sign(from.x - move.posTo.x);
    var p := move.posTo.Offset(xOffset, 0);
    var second := board.PerformMove(move.involvingPosition.value, p);
    if second.Err? {
      return Err(second.reason);
    }
    return Ok(p);
  }

  /**
   * Where the king and the rook stand after a castling with a rook at least three squares
   * away: the king two squares towards the rook, the rook on the square the king crossed,
   * their old squares empty, and every other square as before.
   */
  lemma CastlingOutcome(occupants: seq<Option<Piece>>, from: Position, d: int, q: Position)
    requires |occupants| == 64 && (d == 1 || d == -1)
    requires OnBoard(from) && OnBoard(q) && q.y == from.y
    requires if d == 1 then q.x >= from.x + 3 else q.x <= from.x - 3
    ensures OnBoard(from.Offset(2 * d, 0)) && OnBoard(from.Offset(d, 0))
    ensures var after := Moved(Moved(occupants, from, from.Offset(2 * d, 0)), q, from.Offset(d, 0));
      && after[Index(from.Offset(2 * d, 0))] == occupants[Index(from)]
      && after[Index(from.Offset(d, 0))] == occupants[Index(q)]
      && after[Index(from)].None? && after[Index(q)].None?
      && forall i ::
           (0 <= i < 64 && i != Index(from) && i != Index(q) && i != Index(from.Offset(2 * d, 0)) && i != Index(from.Offset(d, 0)))
           ==> after[i] == occupants[i]
  {
    var king, rook := from.Offset(2 * d, 0), from.Offset(d, 0);
    var f, k, r, o := Index(from), Index(king), Index(rook), Index(q);
    assert k == f + 2 * d && r == f + d && o - f == q.x - from.x;
    var mid := Moved(occupants, from, king);
    var after := Moved(mid, q, rook);
    assert mid[o] == occupants[o];
    assert after[k] == mid[k] == occupants[f];
    assert after[r] == mid[o];
    assert after[f] == mid[f];
  }

  /**
   * KingPiece.SpecialMoveAlgebraicNotation as written: "O-O" when the king moves towards
   * file a (x decreasing), "O-O-O" otherwise; it raises on a missing involving position.
   */
  function SpecialMoveAlgebraicNotation(from: Position, move: SpecialMove): (r: Result<Notation>)
    ensures r.Ok? <==> move.involvingPosition.Some?
    ensures r.Ok? ==> r.value.square.None?
    ensures r.Ok? ==> (r.value.prefix == "O-O" <==> from.x > move.posTo.x)
    ensures r.Ok? ==> (r.value.prefix == "O-O-O" <==> from.x <= move.posTo.x)
  {
    if move.involvingPosition.None? then Err("Invalid special move for king")
    else Ok(Notation(if from.x - move.posTo.x > 0 then "O-O" else "O-O-O", None))
  }

  /**
   * The castling notation as evidently intended: "O-O" for castling on the king's side, where
   * the king moves towards file h (x increasing; InitializeBoard puts the queen on x = 3 and the
   * king on x = 4, so x = 0 is file a), "O-O-O" for the queen's side.
   */
  function CastlingNotation(from: Position, move: SpecialMove): (r: Result<Notation>)
    ensures r.Ok? <==> move.involvingPosition.Some?
    ensures r.Ok? ==> r.value.square.None?
    ensures r.Ok? ==> (r.value.prefix == "O-O" || r.value.prefix == "O-O-O")
  {
    if move.involvingPosition.None? then Err("Invalid special move for king")
    else Ok(Notation(if move.posTo.x > from.x then "O-O" else "O-O-O", None))
  }

  /**
   * Every castling the king generates is named after the side of its rook by CastlingNotation
   * ("O-O" exactly when the rook stands towards file h), and the opposite way by
   * SpecialMoveAlgebraicNotation as written.
   */
  lemma CastlingNotationNamesSide(l: Layout, from: Position, king: Man, m: SpecialMove)
    requires m in CastlingMoves(l, from, king)
    ensures CastlingNotation(from, m).Ok? && SpecialMoveAlgebraicNotation(from, m).Ok?
    ensures CastlingNotation(from, m).value.prefix == "O-O" <==> m.involvingPosition.value.x > from.x
    ensures SpecialMoveAlgebraicNotation(from, m).value.prefix == "O-O" <==> m.involvingPosition.value.x < from.x
  {
    CastlingMembers(l, from, king, m);
  }

  /** As written, the white king's castling e1-g1 with the rook on h1 is named "O-O-O". */
  lemma KingsideNamedQueenside()
    ensures SpecialMoveAlgebraicNotation(Position(4, 0), SpecialMove(Some(Position(7, 0)), Position(6, 0))) == Ok(Notation("O-O-O", None))
    ensures CastlingNotation(Position(4, 0), SpecialMove(Some(Position(7, 0)), Position(6, 0))) == Ok(Notation("O-O", None))
  {
  }
}
