/**
 * The two walks the sliding pieces share: the move ray of Rook/Bishop/Queen.GetPossibleMoves
 * and the depth-counting reachability walk of their CanAttack.
 */
module Rays {
  import opened Positions
  import opened Entities
  import opened Squares

  /** (dx, dy) is one of the eight unit steps. */
  predicate IsStep(dx: int, dy: int)
  {
    -1 <= dx <= 1 && -1 <= dy <= 1 && (dx != 0 || dy != 0)
  }

  /** How many steps by (dx, dy) an on-board position can take before it leaves the board. */
  function Room(p: Position, dx: int, dy: int): int
    requires IsStep(dx, dy)
  {
    if dx == 1 then 8 - p.x
    else if dx == -1 then p.x + 1
    else if dy == 1 then 8 - p.y
    else p.y + 1
  }

  function Abs(n: int): nat
  {
    if n < 0 then -n else n
  }

  /** q is reached from p by zero or more steps of (dx, dy). */
  predicate Ahead(p: Position, q: Position, dx: int, dy: int)
  {
    && (if dx == 0 then q.x == p.x else if dx > 0 then q.x >= p.x else q.x <= p.x)
    && (if dy == 0 then q.y == p.y else if dy > 0 then q.y >= p.y else q.y <= p.y)
    && (dx != 0 && dy != 0 ==> Abs(q.x - p.x) == Abs(q.y - p.y))
  }

  /** The number of steps from p to q. */
  function Dist(p: Position, q: Position, dx: int, dy: int): int
  {
    if dx == 1 then q.x - p.x
    else if dx == -1 then p.x - q.x
    else if dy == 1 then q.y - p.y
    else p.y - q.y
  }

  lemma AheadStep(p: Position, q: Position, dx: int, dy: int)
    requires IsStep(dx, dy) && Ahead(p, q, dx, dy) && p != q
    ensures Ahead(p.Offset(dx, dy), q, dx, dy)
    ensures Dist(p, q, dx, dy) > 0
    ensures Dist(p.Offset(dx, dy), q, dx, dy) == Dist(p, q, dx, dy) - 1
  {
  }

  /**
   * The ray one while-loop of GetPossibleMoves collects, starting at p: empty squares are
   * taken and the walk goes on; the first occupied square is taken when it holds a piece
   * of another colour, and ends the ray either way; leaving the board ends it too.
   */
  function Ray(l: Layout, p: Position, dx: int, dy: int, color: Color): seq<Position>
    requires IsStep(dx, dy)
    decreases if OnBoard(p) then Room(p, dx, dy) else 0
  {
    if !OnBoard(p) then []
    else match l[Index(p)]
      case None => [p] + Ray(l, p.Offset(dx, dy), dx, dy, color)
      case Some(m) => if m.color != color then [p] else []
  }

  /** Every square from p up to, not including, q is on the board and empty. */
  predicate ClearBetween(l: Layout, p: Position, q: Position, dx: int, dy: int)
    requires IsStep(dx, dy) && Ahead(p, q, dx, dy)
  {
    forall r :: r in Segment(p, q, dx, dy) ==> OnBoard(r) && l[Index(r)].None?
  }

  /** Stepping back from a square ahead of p.Offset(dx, dy) lands on a square ahead of p. */
  lemma AheadBack(p: Position, q: Position, dx: int, dy: int)
    requires IsStep(dx, dy) && Ahead(p.Offset(dx, dy), q, dx, dy)
    ensures Ahead(p, q, dx, dy) && p != q
  {
  }

  /** The segment from p starts with p and goes on with the segment from the next square. */
  lemma SegmentStep(p: Position, q: Position, dx: int, dy: int)
    requires IsStep(dx, dy) && Ahead(p, q, dx, dy) && p != q
    ensures Ahead(p.Offset(dx, dy), q, dx, dy)
    ensures Segment(p, q, dx, dy) == [p] + Segment(p.Offset(dx, dy), q, dx, dy)
  {
    AheadStep(p, q, dx, dy);
  }

  /** Past an empty on-board square, the squares before q are clear exactly when they are from the next one on. */
  lemma ClearBetweenStep(l: Layout, p: Position, q: Position, dx: int, dy: int)
    requires IsStep(dx, dy) && Ahead(p, q, dx, dy) && p != q && OnBoard(p) && l[Index(p)].None?
    ensures Ahead(p.Offset(dx, dy), q, dx, dy)
    ensures ClearBetween(l, p, q, dx, dy) <==> ClearBetween(l, p.Offset(dx, dy), q, dx, dy)
  {
    SegmentStep(p, q, dx, dy);
  }

  /**
   * The ray, declaratively: exactly the squares ahead of p that are on the board, empty or
   * of another colour, and have only empty on-board squares before them.
   */
  lemma {:induction false} RayMembers(l: Layout, p: Position, dx: int, dy: int, color: Color, q: Position)
    requires IsStep(dx, dy)
    ensures q in Ray(l, p, dx, dy, color) <==>
      Ahead(p, q, dx, dy) && FreeFor(l, q, color) && ClearBetween(l, p, q, dx, dy)
    decreases if OnBoard(p) then Room(p, dx, dy) else 0
  {
    if q != p && Ahead(p, q, dx, dy) {
      SegmentStep(p, q, dx, dy);
      assert Segment(p, q, dx, dy)[0] == p;
    }
    if OnBoard(p) && l[Index(p)].None? {
      var p' := p.Offset(dx, dy);
      RayMembers(l, p', dx, dy, color, q);
      assert Ray(l, p, dx, dy, color) == [p] + Ray(l, p', dx, dy, color);
      if q != p {
        if Ahead(p', q, dx, dy) {
          AheadBack(p, q, dx, dy);
        }
        if Ahead(p, q, dx, dy) {
          ClearBetweenStep(l, p, q, dx, dy);
        }
      }
    }
  }

  /** Every square of a ray is ahead of its start, on the board, and not of the mover's colour. */
  lemma RayShape(l: Layout, p: Position, dx: int, dy: int, color: Color)
    requires IsStep(dx, dy)
    ensures forall q :: q in Ray(l, p, dx, dy, color) ==> Ahead(p, q, dx, dy) && FreeFor(l, q, color)
  {
    forall q | q in Ray(l, p, dx, dy, color)
      ensures Ahead(p, q, dx, dy) && FreeFor(l, q, color)
    {
      RayMembers(l, p, dx, dy, color, q);
    }
  }

  /**
   * One while-loop of GetPossibleMoves: walk from start by (dx, dy), adding squares until
   * the board ends or a piece is met (an enemy piece is added before stopping).
   */
  method WalkRay(l: Layout, start: Position, dx: int, dy: int, color: Color) returns (moves: seq<Position>)
    requires IsStep(dx, dy)
    ensures moves == Ray(l, start, dx, dy, color)
  {
    moves := [];
    var position := start;
    while OnBoard(position) && (l[Index(position)].None? || l[Index(position)].value.color != color)
      invariant moves + Ray(l, position, dx, dy, color) == Ray(l, start, dx, dy, color)
      decreases if OnBoard(position) then Room(position, dx, dy) else 0
    {
      RayStep(l, position, dx, dy, color);
      if l[Index(position)].Some? {
        moves := moves + [position];
        return;
      }
      var next := position.Offset(dx, dy);
      assert moves + [position] + Ray(l, next, dx, dy, color) == moves + ([position] + Ray(l, next, dx, dy, color));
      moves := moves + [position];
      position := next;
    }
    RayStep(l, position, dx, dy, color);
    assert moves + [] == moves;
  }

  /** One square of a ray: off the board or on an own piece it ends empty, an enemy ends it, an empty square continues it. */
  lemma RayStep(l: Layout, p: Position, dx: int, dy: int, color: Color)
    requires IsStep(dx, dy)
    ensures !OnBoard(p) ==> Ray(l, p, dx, dy, color) == []
    ensures OnBoard(p) && l[Index(p)].None? ==> Ray(l, p, dx, dy, color) == [p] + Ray(l, p.Offset(dx, dy), dx, dy, color)
    ensures OnBoard(p) && l[Index(p)].Some? ==>
      Ray(l, p, dx, dy, color) == if l[Index(p)].value.color != color then [p] else []
  {
  }

  /** The squares from p up to, not including, q. */
  function Segment(p: Position, q: Position, dx: int, dy: int): seq<Position>
    requires IsStep(dx, dy) && Ahead(p, q, dx, dy)
    decreases Dist(p, q, dx, dy)
  {
    if p == q then []
    else
      AheadStep(p, q, dx, dy);
      [p] + Segment(p.Offset(dx, dy), q, dx, dy)
  }

  /** Every position of s is on the board. */
  predicate AllOnBoard(s: seq<Position>)
  {
    forall q :: q in s ==> OnBoard(q)
  }

  /** How many positions of s are on the board and occupied. */
  function OccupiedCount(l: Layout, s: seq<Position>): nat
  {
    if s == [] then 0
    else (if OnBoard(s[0]) && l[Index(s[0])].Some? then 1 else 0) + OccupiedCount(l, s[1..])
  }

  /**
   * The CanAttack walk of the sliding pieces, step by step: while the current square is on
   * the board, is not the target and the depth has not gone negative, note whether it is the
   * go-through square, step on, and spend one depth if it was occupied; at the end the walk
   * succeeds iff it passed the go-through square, stands on the target, and depth >= 0.
   */
  function Walk(l: Layout, cur: Position, dx: int, dy: int, to: Position, through: Position, depth: int, gone: bool): bool
    requires IsStep(dx, dy)
    decreases if OnBoard(cur) then Room(cur, dx, dy) else 0
  {
    if OnBoard(cur) && cur != to && depth >= 0 then
      Walk(l, cur.Offset(dx, dy), dx, dy, to, through,
           if l[Index(cur)].Some? then depth - 1 else depth, gone || cur == through)
    else
      gone && cur == to && depth >= 0
  }

  /** The facts about a segment the walk reads, split into its first square and the rest. */
  lemma SegmentUnfold(l: Layout, cur: Position, to: Position, through: Position, dx: int, dy: int)
    requires IsStep(dx, dy) && Ahead(cur, to, dx, dy) && cur != to
    ensures Ahead(cur.Offset(dx, dy), to, dx, dy)
    ensures var s := Segment(cur.Offset(dx, dy), to, dx, dy);
      && OccupiedCount(l, Segment(cur, to, dx, dy)) == (if OnBoard(cur) && l[Index(cur)].Some? then 1 else 0) + OccupiedCount(l, s)
      && (AllOnBoard(Segment(cur, to, dx, dy)) <==> OnBoard(cur) && AllOnBoard(s))
      && (through in Segment(cur, to, dx, dy) <==> through == cur || through in s)
  {
    AheadStep(cur, to, dx, dy);
    var s := Segment(cur.Offset(dx, dy), to, dx, dy);
    assert Segment(cur, to, dx, dy) == [cur] + s;
    assert ([cur] + s)[1..] == s;
  }

  /**
   * What the walk decides: a target ahead is reached iff every square before it is on the
   * board, at most depth of them are occupied, and the go-through square was already passed
   * or is one of them.
   */
  lemma {:induction false} WalkMeaning(l: Layout, cur: Position, dx: int, dy: int, to: Position, through: Position, depth: int, gone: bool)
    requires IsStep(dx, dy) && Ahead(cur, to, dx, dy)
    ensures Walk(l, cur, dx, dy, to, through, depth, gone) <==>
      && AllOnBoard(Segment(cur, to, dx, dy))
      && OccupiedCount(l, Segment(cur, to, dx, dy)) <= depth
      && (gone || through in Segment(cur, to, dx, dy))
    decreases if OnBoard(cur) then Room(cur, dx, dy) else 0
  {
    if cur != to {
      SegmentUnfold(l, cur, to, through, dx, dy);
      if OnBoard(cur) && depth >= 0 {
        var next := cur.Offset(dx, dy);
        var depth' := if l[Index(cur)].Some? then depth - 1 else depth;
        var gone' := gone || cur == through;
        assert Walk(l, cur, dx, dy, to, through, depth, gone) == Walk(l, next, dx, dy, to, through, depth', gone');
        WalkMeaning(l, next, dx, dy, to, through, depth', gone');
      }
    }
  }

  /** The CanAttack while-loop of RookPiece, BishopPiece and QueenPiece, from the first step on. */
  method WalkAttack(l: Layout, from: Position, to: Position, through: Position, depth: int, dx: int, dy: int)
    returns (reached: bool)
    requires IsStep(dx, dy)
    ensures reached == Walk(l, from.Offset(dx, dy), dx, dy, to, through, depth, from == through)
  {
    var checkedPosition := from.Offset(dx, dy);
    var budget := depth;
    var goneThroughPosition := from == through;
    while OnBoard(checkedPosition) && checkedPosition != to && budget >= 0
      invariant Walk(l, checkedPosition, dx, dy, to, through, budget, goneThroughPosition)
             == Walk(l, from.Offset(dx, dy), dx, dy, to, through, depth, from == through)
      decreases Room(checkedPosition, dx, dy)
    {
      if checkedPosition == through {
        goneThroughPosition := true;
      }
      var occupied := l[Index(checkedPosition)].Some?;
      checkedPosition := checkedPosition.Offset(dx, dy);
      if occupied {
        budget := budget - 1;
      }
    }
    reached := goneThroughPosition && checkedPosition == to && budget >= 0;
  }

  function Sign(n: int): int
  {
    if n > 0 then 1 else if n < 0 then -1 else 0
  }

  /** to lies on the same file, rank or diagonal as from. */
  predicate Aligned(from: Position, to: Position)
  {
    from.x == to.x || from.y == to.y || Abs(to.x - from.x) == Abs(to.y - from.y)
  }

  /** The unit step that leads from an aligned from towards to, and the squares after from. */
  lemma AlignedStep(from: Position, to: Position)
    requires Aligned(from, to) && from != to
    ensures IsStep(Sign(to.x - from.x), Sign(to.y - from.y))
    ensures Ahead(from, to, Sign(to.x - from.x), Sign(to.y - from.y))
    ensures Ahead(from.Offset(Sign(to.x - from.x), Sign(to.y - from.y)), to, Sign(to.x - from.x), Sign(to.y - from.y))
  {
    AheadStep(from, to, Sign(to.x - from.x), Sign(to.y - from.y));
  }

  /** The squares strictly between two distinct aligned positions. */
  function Between(from: Position, to: Position): seq<Position>
    requires Aligned(from, to) && from != to
  {
    AlignedStep(from, to);
    var dx, dy := Sign(to.x - from.x), Sign(to.y - from.y);
    Segment(from.Offset(dx, dy), to, dx, dy)
  }

  /** Every square of a segment is ahead of its start, and the end is ahead of it and different. */
  lemma {:induction false} SegmentMembers(p: Position, q: Position, dx: int, dy: int, r: Position)
    requires IsStep(dx, dy) && Ahead(p, q, dx, dy)
    ensures r in Segment(p, q, dx, dy) ==> Ahead(p, r, dx, dy) && Ahead(r, q, dx, dy) && r != q
    decreases Dist(p, q, dx, dy)
  {
    if p != q {
      AheadStep(p, q, dx, dy);
      SegmentMembers(p.Offset(dx, dy), q, dx, dy, r);
    }
  }

  /**
   * An attack along an aligned line from `from` reaches `to`, cutting through at most depth
   * pieces and passing `through`: every square strictly between is on the board, at most depth
   * of them are occupied, and `through` is from itself or one of them.
   */
  predicate Reaches(l: Layout, from: Position, to: Position, through: Position, depth: int)
    requires Aligned(from, to) && from != to
  {
    && AllOnBoard(Between(from, to))
    && OccupiedCount(l, Between(from, to)) <= depth
    && (through == from || through in Between(from, to))
  }

  /** The CanAttack walk from from towards an aligned to decides Reaches. */
  lemma WalkReaches(l: Layout, from: Position, to: Position, through: Position, depth: int)
    requires Aligned(from, to) && from != to
    ensures IsStep(Sign(to.x - from.x), Sign(to.y - from.y))
    ensures Walk(l, from.Offset(Sign(to.x - from.x), Sign(to.y - from.y)), Sign(to.x - from.x), Sign(to.y - from.y),
                 to, through, depth, from == through)
            == Reaches(l, from, to, through, depth)
  {
    AlignedStep(from, to);
    var dx, dy := Sign(to.x - from.x), Sign(to.y - from.y);
    WalkMeaning(l, from.Offset(dx, dy), dx, dy, to, through, depth, from == through);
  }

  /** A square strictly between from and to keeps the direction of the line. */
  lemma BetweenOnLine(from: Position, to: Position, r: Position)
    requires Aligned(from, to) && from != to && r in Between(from, to)
    ensures from.x == to.x ==> r.x == to.x
    ensures from.y == to.y ==> r.y == to.y
    ensures Abs(to.x - from.x) == Abs(to.y - from.y) ==> Abs(r.x - from.x) == Abs(r.y - from.y)
    ensures r != to && r != from
  {
    AlignedStep(from, to);
    var dx, dy := Sign(to.x - from.x), Sign(to.y - from.y);
    SegmentMembers(from.Offset(dx, dy), to, dx, dy, r);
  }

  /** Every square strictly between from and q is on the board and empty. */
  predicate Clear(l: Layout, from: Position, q: Position)
    requires Aligned(from, q) && from != q
  {
    forall r :: r in Between(from, q) ==> OnBoard(r) && l[Index(r)].None?
  }

  /**
   * The ray GetPossibleMoves collects in direction (dx, dy) from `from`: exactly the squares q
   * on that line in that direction that are free for the mover and have only empty squares
   * between from and q.
   */
  lemma RayFrom(l: Layout, from: Position, dx: int, dy: int, color: Color, q: Position)
    requires IsStep(dx, dy)
    ensures q in Ray(l, from.Offset(dx, dy), dx, dy, color) <==>
      && q != from && Aligned(from, q)
      && Sign(q.x - from.x) == dx && Sign(q.y - from.y) == dy
      && FreeFor(l, q, color) && Clear(l, from, q)
  {
    RayMembers(l, from.Offset(dx, dy), dx, dy, color, q);
    if Ahead(from.Offset(dx, dy), q, dx, dy) {
      AheadBack(from, q, dx, dy);
    }
    if q != from && Aligned(from, q) && Sign(q.x - from.x) == dx && Sign(q.y - from.y) == dy {
      AlignedStep(from, q);
    }
  }
}
