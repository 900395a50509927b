/**
 * What Piece (ChessMagic/Entity/Piece.cs) does for every variant that does not override it:
 * the check and pin filter of the cached moves, and TrimMoves.
 */
module Pieces {
  import opened Wrappers
  import opened Positions
  import opened Entities
  import opened Squares
  import opened Attacks
  import opened Compaction
  import opened Passes

  /** A square named by a threat list can be asked about its attacker: it is on the board and occupied. */
  predicate ValidSource(l: Layout, c: Position)
  {
    OnBoard(c) && l[Index(c)].Some?
  }

  /** The man on c can attack the king, passing through `through` and cutting through `depth` pieces. */
  predicate AttacksThrough(l: Layout, c: Position, king: Position, through: Option<Position>, depth: int)
    requires ValidSource(l, c)
  {
    CanAttack(l[Index(c)].value, c, king, l, through, depth)
  }

  /** Move m answers the check given from c: it captures the checker, or the checker's attack passes through m. */
  predicate Answers(l: Layout, king: Position, c: Position, m: Position)
  {
    m == c || (ValidSource(l, c) && AttacksThrough(l, c, king, Some(m), 0))
  }

  /** Move m answers the checks of the first n checkers. */
  predicate BlocksChecks(l: Layout, king: Position, checkers: seq<Position>, n: int, m: Position)
    requires n <= |checkers|
  {
    forall j :: 0 <= j < n ==> Answers(l, king, checkers[j], m)
  }

  /**
   * The check stage raises on none of the moves s: a move that reaches checker j, having answered
   * every earlier check, and is not that checker's square, finds an occupied square there.
   */
  predicate ChecksSafe(l: Layout, king: Position, checkers: seq<Position>, s: seq<Position>)
  {
    forall j, i :: 0 <= j < |checkers| && 0 <= i < |s| && BlocksChecks(l, king, checkers, j, s[i]) ==>
      s[i] == checkers[j] || ValidSource(l, checkers[j])
  }

  /** t pins the piece on from: the man on t attacks the king through from, cutting through one piece. */
  predicate Pins(l: Layout, king: Position, from: Position, t: Position)
  {
    ValidSource(l, t) && AttacksThrough(l, t, king, Some(from), 1)
  }

  /** A pinned piece may go only where its pinner's attack on the king still passes, cutting through one piece. */
  predicate KeepsPin(l: Layout, king: Position, t: Position, m: Position)
  {
    ValidSource(l, t) && AttacksThrough(l, t, king, Some(m), 1)
  }

  /** Move m keeps every pin on the piece on from by the squares of its threat list. */
  predicate RespectsPins(l: Layout, king: Position, from: Position, threats: seq<Position>, m: Position)
  {
    forall j :: 0 <= j < |threats| && Pins(l, king, from, threats[j]) ==> KeepsPin(l, king, threats[j], m)
  }

  /**
   * The verdict of checker c on move m in Piece.RemoveInvalidMoves: kept when it is the checker's
   * square (compared first, so the checker's square is not looked at), raising when the checker's
   * square is off the board or empty, else kept exactly when the checker's attack passes through m.
   */
  function CheckVerdict(l: Layout, king: Position, c: Position, m: Position): Verdict
  {
    if m == c then Keep
    else if !ValidSource(l, c) then Throw
    else if AttacksThrough(l, c, king, Some(m), 0) then Keep
    else Drop
  }

  /** Kept by the check stage is answering the checks; raising is reaching a checker on an unusable square. */
  lemma CheckStageMeaning(l: Layout, king: Position, checkers: seq<Position>, s: seq<Position>, v: (Position, Position) -> Verdict)
    requires forall c, m :: v(c, m) == CheckVerdict(l, king, c, m)
    ensures forall n, x :: 0 <= n <= |checkers| ==> (KeptBy(checkers, n, v, x) <==> BlocksChecks(l, king, checkers, n, x))
    ensures SafePasses(s, checkers, |checkers|, v) <==> ChecksSafe(l, king, checkers, s)
  {
    forall n, x | 0 <= n <= |checkers|
      ensures KeptBy(checkers, n, v, x) <==> BlocksChecks(l, king, checkers, n, x)
    {
      assert forall j :: 0 <= j < n ==> (v(checkers[j], x) == Keep <==> Answers(l, king, checkers[j], x));
    }
  }

  /**
   * Piece.RemoveInvalidMoves over the cached moves a: the check stage, one swap pass per square
   * the king is threatened from, then the pin stage, one per square threatening the piece. It
   * only swaps, and it leaves in a[..k] exactly the moves that answer every check and keep every
   * pin; it raises when a check reaches an unusable square or a threat comes from one.
   */
  method RemoveInvalidMoves(l: Layout, a: array<Position>, from: Position, threats: seq<Position>, king: Position, checkers: seq<Position>)
    returns (r: Result<nat>)
    modifies a
    ensures multiset(a[..]) == multiset(old(a[..]))
    ensures r.Ok? <==> ChecksSafe(l, king, checkers, old(a[..])) && forall j :: 0 <= j < |threats| ==> ValidSource(l, threats[j])
    ensures r.Err? ==> r.reason == if ChecksSafe(l, king, checkers, old(a[..])) then "Invalid threaten source" else NullReference
    ensures r.Ok? ==> r.value <= a.Length
    ensures r.Ok? ==> forall x ::
      multiset(a[..r.value])[x] ==
      if BlocksChecks(l, king, checkers, |checkers|, x) && RespectsPins(l, king, from, threats, x) then multiset(old(a[..]))[x] else 0
  {
    var v := (c: Position, m: Position) => CheckVerdict(l, king, c, m);
    CheckStageMeaning(l, king, checkers, a[..], v);
    assert a[..a.Length] == a[..];
    r := CheckStage(a, a.Length, checkers, v, NullReference);
    if r.Err? {
      return;
    }
    var k := r.value;
    var pins := (t: Position) => Pins(l, king, from, t);
    var keep := (t: Position, m: Position) => KeepsPin(l, king, t, m);
    r := PinStage(a, k, threats, (t: Position) => ValidSource(l, t), pins, keep);
    if r.Ok? {
      forall x
        ensures multiset(a[..r.value])[x] ==
          if BlocksChecks(l, king, checkers, |checkers|, x) && RespectsPins(l, king, from, threats, x) then multiset(old(a[..]))[x] else 0
      {
        assert PinKept(threats, |threats|, pins, keep, x) <==> RespectsPins(l, king, from, threats, x);
      }
    }
  }

  /**
   * Piece.TrimMoves: each cached array whose length differs from its new count is replaced by a
   * fresh copy of its first count entries; an array whose count equals its length is kept as is.
   */
  method TrimMoves(moves: array<Position>, specials: array<SpecialMove>, moveCount: nat, specialMoveCount: nat)
    returns (moves': array<Position>, specials': array<SpecialMove>)
    requires moveCount <= moves.Length && specialMoveCount <= specials.Length
    ensures moves'[..] == moves[..moveCount] && specials'[..] == specials[..specialMoveCount]
    ensures moveCount == moves.Length ==> moves' == moves
    ensures specialMoveCount == specials.Length ==> specials' == specials
    ensures moveCount != moves.Length ==> fresh(moves')
    ensures specialMoveCount != specials.Length ==> fresh(specials')
  {
    moves', specials' := moves, specials;
    assert moves[..] == moves[..moves.Length];
    assert specials[..] == specials[..specials.Length];
    if moveCount != moves.Length {
      var newMoves := new Position[moveCount];
      for i := 0 to moveCount
        invariant newMoves[..i] == moves[..i]
      {
        newMoves[i] := moves[i];
      }
      assert newMoves[..] == newMoves[..moveCount];
      moves' := newMoves;
    }
    if specialMoveCount != specials.Length {
      var newMoves := new SpecialMove[specialMoveCount];
      for i := 0 to specialMoveCount
        modifies newMoves
        invariant newMoves[..i] == specials[..i]
      {
        newMoves[i] := specials[i];
      }
      assert newMoves[..] == newMoves[..specialMoveCount];
      specials' := newMoves;
    }
  }
}
