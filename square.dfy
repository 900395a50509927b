/** One cell of the board (ChessMagic/Board/Square.cs) and the board-wide views read by move generation. */
module Squares {
  import opened Wrappers
  import opened Positions
  import opened Entities

  /** A square: its optional occupant and the origins currently threatening it. */
  datatype Square = Square(occupant: Option<Piece>, threateningPositions: seq<Position>) {

    predicate IsOccupied()
    {
      occupant.Some?
    }

    function PossibleMoves(): (r: seq<Position>)
      ensures occupant.None? ==> r == []
      ensures occupant.Some? ==> r == occupant.value.possibleMoves
    {
      if occupant.Some? then occupant.value.possibleMoves else []
    }

    function PossibleSpecialMoves(): (r: seq<SpecialMove>)
      ensures occupant.None? ==> r == []
      ensures occupant.Some? ==> r == occupant.value.possibleSpecialMoves
    {
      if occupant.Some? then occupant.value.possibleSpecialMoves else []
    }
  }

  /** The Square constructor: the given occupant and an empty threat list. */
  function NewSquare(occupant: Option<Piece>): (s: Square)
    ensures s.occupant == occupant && s.threateningPositions == []
    ensures s.IsOccupied() <==> occupant.Some?
  {
    Square(occupant, [])
  }

  /** What each of the 64 squares holds, as move generation sees it. */
  type Layout = s: seq<Option<Man>> | |s| == 64 witness seq(64, (_: int) => Option<Man>.None)

  /** The threat list of each of the 64 squares. */
  type ThreatLists = s: seq<seq<Position>> | |s| == 64 witness seq(64, (_: int) => [])

  function ManOf(s: Square): Option<Man>
  {
    if s.occupant.Some? then Some(s.occupant.value.man) else None
  }

  function LayoutOf(cells: seq<Square>): (l: Layout)
    requires |cells| == 64
    ensures forall i :: 0 <= i < 64 ==> l[i] == ManOf(cells[i])
  {
    seq(64, i requires 0 <= i < 64 => ManOf(cells[i]))
  }

  function ThreatsOf(cells: seq<Square>): (t: ThreatLists)
    requires |cells| == 64
    ensures forall i :: 0 <= i < 64 ==> t[i] == cells[i].threateningPositions
  {
    seq(64, i requires 0 <= i < 64 => cells[i].threateningPositions)
  }

  /** The occupant of an on-board position. */
  function At(l: Layout, p: Position): Option<Man>
    requires OnBoard(p)
  {
    l[Index(p)]
  }

  /** The square is on the board and empty or holds a piece of another colour. */
  predicate FreeFor(l: Layout, p: Position, color: Color)
  {
    OnBoard(p) && (l[Index(p)].None? || l[Index(p)].value.color != color)
  }

  /**
   * KnightPiece.CheckPosition and KingPiece.IsValidPosition: the square at the offset, as a
   * one-element list when it is free for the mover.
   */
  function Leap(l: Layout, from: Position, dx: int, dy: int, color: Color): (r: seq<Position>)
    ensures r == [] || r == [from.Offset(dx, dy)]
    ensures r != [] <==> FreeFor(l, from.Offset(dx, dy), color)
  {
    if FreeFor(l, from.Offset(dx, dy), color) then [from.Offset(dx, dy)] else []
  }

  /** A leap holds q exactly when q is the square at the offset and is free for the mover. */
  lemma LeapMember(l: Layout, from: Position, dx: int, dy: int, color: Color, q: Position)
    ensures q in Leap(l, from, dx, dy, color) <==> q == from.Offset(dx, dy) && FreeFor(l, q, color)
    ensures |Leap(l, from, dx, dy, color)| <= 1
  {
  }

  /** p repeated n times. */
  function Repeat(p: Position, n: nat): (r: seq<Position>)
    ensures |r| == n
  {
    if n == 0 then [] else [p] + Repeat(p, n - 1)
  }

  /** How many of the targets qs are the on-board square with index j. */
  function Hits(qs: seq<Position>, j: int): nat
  {
    if qs == [] then 0
    else (if OnBoard(qs[0]) && Index(qs[0]) == j then 1 else 0) + Hits(qs[1..], j)
  }

  /**
   * The threat lists after ThreatenSquare appends `from` to the list of each target of qs in
   * turn; an off-board target is passed over (the callers raise on it before).
   */
  function Threatened(t: ThreatLists, qs: seq<Position>, from: Position): ThreatLists
    decreases |qs|
  {
    if qs == [] then t
    else if !OnBoard(qs[0]) then Threatened(t, qs[1..], from)
    else Threatened(t[Index(qs[0]) := t[Index(qs[0])] + [from]], qs[1..], from)
  }

  /** Every list keeps its entries in front and gains `from` once for each time qs names its square. */
  lemma {:induction false} ThreatenedAt(t: ThreatLists, qs: seq<Position>, from: Position, j: int)
    requires 0 <= j < 64
    ensures Threatened(t, qs, from)[j] == t[j] + Repeat(from, Hits(qs, j))
    decreases |qs|
  {
    if qs != [] {
      if !OnBoard(qs[0]) {
        ThreatenedAt(t, qs[1..], from, j);
      } else {
        var i := Index(qs[0]);
        ThreatenedAt(t[i := t[i] + [from]], qs[1..], from, j);
      }
    }
  }

  /** The squares qs names are the on-board ones among its entries. */
  lemma {:induction false} HitsMember(qs: seq<Position>, j: int)
    requires 0 <= j < 64
    ensures Hits(qs, j) > 0 <==> PosOf(j) in qs
    decreases |qs|
  {
    if qs != [] {
      HitsMember(qs[1..], j);
      assert qs == [qs[0]] + qs[1..];
      if OnBoard(qs[0]) && Index(qs[0]) == j {
        IndexInjective(qs[0], PosOf(j));
      }
    }
  }

  /** An origin is in a square's list afterwards iff it was before, or it is `from` and qs names that square. */
  lemma ThreatenedMembers(t: ThreatLists, qs: seq<Position>, from: Position, j: int, p: Position)
    requires 0 <= j < 64
    ensures p in Threatened(t, qs, from)[j] <==> p in t[j] || (p == from && PosOf(j) in qs)
  {
    ThreatenedAt(t, qs, from, j);
    HitsMember(qs, j);
    var n := Hits(qs, j);
    if n > 0 {
      assert Repeat(from, n)[0] == from;
    }
    assert forall k :: 0 <= k < n ==> Repeat(from, n)[k] == from by {
      RepeatAll(from, n);
    }
  }

  lemma {:induction false} RepeatAll(p: Position, n: nat)
    ensures forall k :: 0 <= k < n ==> Repeat(p, n)[k] == p
  {
    if n > 0 {
      RepeatAll(p, n - 1);
    }
  }

  /** Threatening the targets of a + b is threatening those of a, then those of b. */
  lemma {:induction false} ThreatenedSplit(t: ThreatLists, a: seq<Position>, b: seq<Position>, from: Position)
    ensures Threatened(t, a + b, from) == Threatened(Threatened(t, a, from), b, from)
    decreases |a|
  {
    if a != [] {
      assert (a + b)[0] == a[0] && (a + b)[1..] == a[1..] + b;
      if OnBoard(a[0]) {
        ThreatenedSplit(t[Index(a[0]) := t[Index(a[0])] + [from]], a[1..], b, from);
      } else {
        ThreatenedSplit(t, a[1..], b, from);
      }
    } else {
      assert a + b == b;
    }
  }
}
