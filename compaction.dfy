/**
 * The two in-place compaction loops of the piece filters. Each walks a prefix a[..k] with
 * an index i and a shrinking bound k, asks a verdict for a[i], and on a removal moves the
 * last element of the prefix into slot i and looks at slot i again.
 *   - SwapCompact swaps a[i] with a[k-1] (Piece.RemoveInvalidMoves, PawnPiece.RemoveInvalidSpecialMoves);
 *   - OverwriteCompact copies a[k-1] over a[i] (KingPiece.RemoveInvalidMoves).
 * A Throw verdict is an exception raised while testing that element; the caller names its message.
 */
module Compaction {
  import opened Wrappers

  datatype Verdict = Keep | Drop | Throw

  /** Testing the elements of s raises no exception. */
  predicate NoThrow<T>(s: seq<T>, v: T -> Verdict)
  {
    forall j :: 0 <= j < |s| ==> v(s[j]) != Throw
  }

  /** No element of s has verdict w, so no value with verdict w is counted in s. */
  lemma NoneWith<T>(s: seq<T>, v: T -> Verdict, w: Verdict, x: T)
    requires forall j :: 0 <= j < |s| ==> v(s[j]) != w
    ensures v(x) == w ==> multiset(s)[x] == 0
  {
    if s != [] {
      assert s == [s[0]] + s[1..];
      NoneWith(s[1..], v, w, x);
    }
  }

  /** A Throw verdict on an element of s, all of whose elements come from o, is one on an element of o. */
  lemma ThrowFound<T>(s: seq<T>, o: seq<T>, v: T -> Verdict, x: T)
    requires multiset(s) <= multiset(o) && x in s && v(x) == Throw
    ensures !NoThrow(o, v)
  {
    assert x in multiset(s);
    assert x in o;
    var j :| 0 <= j < |o| && o[j] == x;
  }

  /**
   * What a finished swap pass leaves: a permutation s of o whose prefix s[..k] is all Keep
   * and whose rest is all Drop holds, in its prefix, exactly the kept elements of o.
   */
  lemma SwapOutcome<T>(s: seq<T>, o: seq<T>, k: nat, v: T -> Verdict)
    requires k <= |s| && multiset(s) == multiset(o)
    requires forall j :: 0 <= j < k ==> v(s[j]) == Keep
    requires forall j :: k <= j < |s| ==> v(s[j]) == Drop
    ensures NoThrow(o, v)
    ensures forall x :: multiset(s[..k])[x] == if v(x) == Keep then multiset(o)[x] else 0
  {
    assert s == s[..k] + s[k..];
    forall x
      ensures multiset(s[..k])[x] == if v(x) == Keep then multiset(o)[x] else 0
      ensures v(x) == Throw ==> multiset(o)[x] == 0
    {
      NoneWith(s[k..], v, Keep, x);
      NoneWith(s[k..], v, Throw, x);
      NoneWith(s[..k], v, Drop, x);
      NoneWith(s[..k], v, Throw, x);
    }
    forall j | 0 <= j < |o|
      ensures v(o[j]) != Throw
    {
      assert o[j] in multiset(o);
    }
  }

  /**
   * What a finished overwrite pass leaves: a prefix that is all Keep and that, together with
   * the removed Drop elements, makes up o, holds exactly the kept elements of o.
   */
  lemma OverwriteOutcome<T>(s: seq<T>, removed: seq<T>, o: seq<T>, v: T -> Verdict)
    requires multiset(s) + multiset(removed) == multiset(o)
    requires forall j :: 0 <= j < |removed| ==> v(removed[j]) == Drop
    requires forall j :: 0 <= j < |s| ==> v(s[j]) == Keep
    ensures NoThrow(o, v)
    ensures forall x :: multiset(s)[x] == if v(x) == Keep then multiset(o)[x] else 0
  {
    forall x
      ensures multiset(s)[x] == if v(x) == Keep then multiset(o)[x] else 0
      ensures v(x) == Throw ==> multiset(o)[x] == 0
    {
      NoneWith(s, v, Drop, x);
      NoneWith(s, v, Throw, x);
      NoneWith(removed, v, Keep, x);
      NoneWith(removed, v, Throw, x);
    }
    forall j | 0 <= j < |o|
      ensures v(o[j]) != Throw
    {
      assert o[j] in multiset(o);
    }
  }

  /** Permuting a prefix and keeping the rest permutes the whole. */
  lemma PermutedPrefix<T>(s: seq<T>, o: seq<T>, k0: nat)
    requires k0 <= |s| == |o|
    requires multiset(s[..k0]) == multiset(o[..k0]) && s[k0..] == o[k0..]
    ensures multiset(s) == multiset(o)
  {
    assert s == s[..k0] + s[k0..];
    assert o == o[..k0] + o[k0..];
  }

  /** Exchanges a[i] and a[j] inside the prefix a[..n]. */
  method Swap<T>(a: array<T>, i: nat, j: nat, n: nat)
    requires i < j < n <= a.Length
    modifies a
    ensures a[i] == old(a[j]) && a[j] == old(a[i])
    ensures forall m :: 0 <= m < a.Length && m != i && m != j ==> a[m] == old(a[m])
    ensures multiset(a[..n]) == old(multiset(a[..n]))
    ensures a[n..] == old(a[n..])
  {
    var t := a[i];
    a[i] := a[j];
    a[j] := t;
  }

  /** Overwriting slot i with the last slot and dropping the last slot removes s[i]. */
  lemma OverwriteLast<T>(s: seq<T>, i: nat)
    requires i < |s|
    ensures multiset(s[i := s[|s| - 1]][..|s| - 1]) + multiset{s[i]} == multiset(s)
  {
    var n := |s| - 1;
    assert s == s[..n] + [s[n]];
    if i < n {
      assert s[..n] == s[..i] + [s[i]] + s[i + 1..n];
      assert s[i := s[n]][..n] == s[..i] + [s[n]] + s[i + 1..n];
    }
  }

  method SwapCompact<T(==)>(a: array<T>, k0: nat, v: T -> Verdict, reason: string) returns (r: Result<nat>)
    requires k0 <= a.Length
    modifies a
    ensures r.Err? ==> r.reason == reason
    ensures multiset(a[..]) == multiset(old(a[..]))
    ensures a[k0..] == old(a[k0..])
    ensures r.Ok? <==> NoThrow(old(a[..k0]), v)
    ensures r.Ok? ==> r.value <= k0
    ensures r.Ok? ==> forall j :: 0 <= j < r.value ==> v(a[j]) == Keep
    ensures r.Ok? ==> forall j :: r.value <= j < k0 ==> v(a[j]) == Drop
    ensures r.Ok? ==> forall x :: multiset(a[..r.value])[x] == if v(x) == Keep then multiset(old(a[..k0]))[x] else 0
  {
    var k: nat := k0;
    var i := 0;
    while i < k
      invariant 0 <= i <= k <= k0
      invariant multiset(a[..k0]) == multiset(old(a[..k0]))
      invariant a[k0..] == old(a[k0..])
      invariant forall j :: 0 <= j < i ==> v(a[j]) == Keep
      invariant forall j :: k <= j < k0 ==> v(a[j]) == Drop
      decreases k - i
    {
      var move := a[i];
      var verdict := v(move);
      if verdict == Throw {
        ThrowFound(a[..k0], old(a[..k0]), v, move);
        PermutedPrefix(a[..], old(a[..]), k0);
        return Err(reason);
      } else if verdict == Drop {
        if i < k - 1 {
          Swap(a, i, k - 1, k0);
        }
        k := k - 1;
      } else {
        i := i + 1;
      }
    }
    PermutedPrefix(a[..], old(a[..]), k0);
    SwapOutcome(a[..k0], old(a[..k0]), k, v);
    assert a[..k0][..k] == a[..k];
    r := Ok(k);
  }

  /** A part of a split of o is contained in o. */
  lemma Removal<T>(cur: seq<T>, removed: seq<T>, o: seq<T>)
    requires multiset(cur) + multiset(removed) == multiset(o)
    ensures multiset(cur) <= multiset(o)
  {
  }

  /**
   * One removal of the overwrite pass: slot i takes the last element a[k] of the prefix
   * a[..k+1], which then shrinks to a[..k]. The ghost cur is that prefix and removed what was
   * dropped so far, which together make up o; the old a[i] moves from one to the other.
   */
  method MoveLast<T>(a: array<T>, i: nat, k: nat, ghost cur: seq<T>, ghost removed: seq<T>, ghost o: seq<T>)
    returns (ghost cur': seq<T>, ghost removed': seq<T>)
    requires i <= k < a.Length && |cur| == k + 1
    requires forall j :: 0 <= j <= k ==> a[j] == cur[j]
    requires multiset(cur) + multiset(removed) == multiset(o)
    modifies a
    ensures |cur'| == k && forall j :: 0 <= j < k ==> a[j] == cur'[j]
    ensures forall j :: 0 <= j < i ==> cur'[j] == cur[j]
    ensures forall m :: 0 <= m < a.Length && m != i ==> a[m] == old(a[m])
    ensures removed' == removed + [cur[i]]
    ensures multiset(cur') + multiset(removed') == multiset(o)
  {
    OverwriteLast(cur, i);
    cur' := cur[i := cur[k]][..k];
    removed' := removed + [cur[i]];
    assert multiset(removed') == multiset(removed) + multiset{cur[i]};
    a[i] := a[k];
  }

  /**
   * KingPiece.RemoveInvalidMoves' loop over the prefix a[..k0]: a Throw verdict raises, a Drop
   * verdict moves the last element of the prefix into slot i, which is examined again. The
   * ghost removed lists the dropped elements.
   */
  method OverwritePass<T(==)>(a: array<T>, k0: nat, v: T -> Verdict, reason: string) returns (r: Result<nat>, ghost removed: seq<T>)
    requires k0 <= a.Length
    modifies a
    ensures r.Err? ==> r.reason == reason
    ensures a[k0..] == old(a[k0..])
    ensures r.Err? ==> !NoThrow(old(a[..k0]), v)
    ensures r.Ok? ==> r.value <= k0 && multiset(a[..r.value]) + multiset(removed) == multiset(old(a[..k0]))
    ensures r.Ok? ==> forall j :: 0 <= j < |removed| ==> v(removed[j]) == Drop
    ensures r.Ok? ==> forall j :: 0 <= j < r.value ==> v(a[j]) == Keep
  {
    ghost var o := a[..k0];
    ghost var cur := o;
    removed := [];
    var k := k0;
    var i := 0;
    while i < k
      invariant 0 <= i <= k <= k0 && |cur| == k
      invariant forall j :: 0 <= j < k ==> a[j] == cur[j]
      invariant forall m :: k0 <= m < a.Length ==> a[m] == old(a[m])
      invariant multiset(cur) + multiset(removed) == multiset(o)
      invariant forall j :: 0 <= j < |removed| ==> v(removed[j]) == Drop
      invariant forall j :: 0 <= j < i ==> v(cur[j]) == Keep
      decreases k - i
    {
      var move := a[i];
      var verdict := v(move);
      if verdict == Throw {
        Removal(cur, removed, o);
        ThrowFound(cur, o, v, move);
        assert a[k0..] == old(a[k0..]);
        return Err(reason), removed;
      } else if verdict == Drop {
        k := k - 1;
        cur, removed := MoveLast(a, i, k, cur, removed, o);
      } else {
        i := i + 1;
      }
    }
    assert a[k0..] == old(a[k0..]);
    assert a[..k] == cur;
    r := Ok(k);
  }

  /** The overwrite pass leaves in its prefix exactly the kept elements, when no test raises. */
  method OverwriteCompact<T(==)>(a: array<T>, k0: nat, v: T -> Verdict, reason: string) returns (r: Result<nat>)
    requires k0 <= a.Length
    modifies a
    ensures r.Err? ==> r.reason == reason
    ensures a[k0..] == old(a[k0..])
    ensures r.Ok? <==> NoThrow(old(a[..k0]), v)
    ensures r.Ok? ==> r.value <= k0
    ensures r.Ok? ==> forall x :: multiset(a[..r.value])[x] == if v(x) == Keep then multiset(old(a[..k0]))[x] else 0
  {
    ghost var removed;
    r, removed := OverwritePass(a, k0, v, reason);
    if r.Ok? {
      OverwriteOutcome(a[..r.value], removed, old(a[..k0]), v);
    }
  }
}
