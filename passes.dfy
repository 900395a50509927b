/**
 * The two filter stages of Piece.RemoveInvalidMoves and PawnPiece.RemoveInvalidSpecialMoves,
 * each a sequence of swap passes (Compaction.SwapCompact) over a shrinking prefix:
 *   - the check stage runs one pass per square the king is threatened from;
 *   - the pin stage runs one pass per square threatening the piece that pins it.
 */
module Passes {
  import opened Wrappers
  import opened Compaction

  /** x is kept by the passes of the first n checkers of cs. */
  predicate KeptBy<C, T>(cs: seq<C>, n: int, v: (C, T) -> Verdict, x: T)
    requires n <= |cs|
  {
    forall j :: 0 <= j < n ==> v(cs[j], x) == Keep
  }

  /**
   * The passes of the first n checkers of cs, run in turn over s, raise nothing: an element
   * that reaches pass j, being kept by every earlier pass, does not throw there.
   */
  predicate SafePasses<C, T>(s: seq<T>, cs: seq<C>, n: int, v: (C, T) -> Verdict)
    requires n <= |cs|
  {
    forall j, i :: 0 <= j < n && 0 <= i < |s| && KeptBy(cs, j, v, s[i]) ==> v(cs[j], s[i]) != Throw
  }

  /** What is left after pass j is what was left before it and is kept by it. */
  lemma PassStep<C, T>(o: seq<T>, before: seq<T>, after: seq<T>, cs: seq<C>, j: nat, v: (C, T) -> Verdict, w: T -> Verdict)
    requires j < |cs| && forall m :: w(m) == v(cs[j], m)
    requires forall x :: multiset(before)[x] == if KeptBy(cs, j, v, x) then multiset(o)[x] else 0
    requires forall x :: multiset(after)[x] == if w(x) == Keep then multiset(before)[x] else 0
    ensures forall x :: multiset(after)[x] == if KeptBy(cs, j + 1, v, x) then multiset(o)[x] else 0
  {
    forall x
      ensures multiset(after)[x] == if KeptBy(cs, j + 1, v, x) then multiset(o)[x] else 0
    {
      assert KeptBy(cs, j + 1, v, x) <==> KeptBy(cs, j, v, x) && v(cs[j], x) == Keep;
    }
  }

  /** Pass j raises exactly when one of the elements that reach it throws there. */
  lemma SafeStep<C, T>(o: seq<T>, before: seq<T>, cs: seq<C>, j: nat, v: (C, T) -> Verdict, w: T -> Verdict)
    requires j < |cs| && forall m :: w(m) == v(cs[j], m)
    requires forall x :: multiset(before)[x] == if KeptBy(cs, j, v, x) then multiset(o)[x] else 0
    requires SafePasses(o, cs, j, v)
    ensures SafePasses(o, cs, j + 1, v) <==> NoThrow(before, w)
  {
    if NoThrow(before, w) {
      forall j', i | 0 <= j' < j + 1 && 0 <= i < |o| && KeptBy(cs, j', v, o[i])
        ensures v(cs[j'], o[i]) != Throw
      {
        if j' == j {
          assert o[i] in multiset(o);
          assert o[i] in multiset(before);
          var i' :| 0 <= i' < |before| && before[i'] == o[i];
        }
      }
    } else {
      var i' :| 0 <= i' < |before| && w(before[i']) == Throw;
      var x := before[i'];
      assert x in multiset(before);
      assert x in multiset(o);
      var i :| 0 <= i < |o| && o[i] == x;
      assert KeptBy(cs, j, v, o[i]) && v(cs[j], o[i]) == Throw;
    }
  }

  /**
   * A check stage: the swap pass of each checker of cs in turn over the prefix a[..k0], where
   * v(c, m) is the verdict of checker c on element m. It succeeds when no pass raises, and
   * then leaves in its prefix exactly the elements every pass keeps; a pass that raises gives reason.
   */
  method CheckStage<C, T(==)>(a: array<T>, k0: nat, cs: seq<C>, v: (C, T) -> Verdict, reason: string) returns (r: Result<nat>)
    requires k0 <= a.Length
    modifies a
    ensures r.Err? ==> r.reason == reason
    ensures multiset(a[..]) == multiset(old(a[..]))
    ensures a[k0..] == old(a[k0..])
    ensures r.Ok? <==> SafePasses(old(a[..k0]), cs, |cs|, v)
    ensures r.Ok? ==> r.value <= k0
    ensures r.Ok? ==> forall x :: multiset(a[..r.value])[x] == if KeptBy(cs, |cs|, v, x) then multiset(old(a[..k0]))[x] else 0
  {
    ghost var o := a[..k0];
    var k: nat := k0;
    for j := 0 to |cs|
      invariant k <= k0
      invariant multiset(a[..]) == multiset(old(a[..]))
      invariant a[k0..] == old(a[k0..])
      invariant SafePasses(o, cs, j, v)
      invariant forall x :: multiset(a[..k])[x] == if KeptBy(cs, j, v, x) then multiset(o)[x] else 0
    {
      var c := cs[j];
      ghost var before := a[..k];
      ghost var mid := a[..];
      var w := (m: T) => v(c, m);
      SafeStep(o, before, cs, j, v, w);
      r := SwapCompact(a, k, w, reason);
      assert a[k0..] == a[k..][k0 - k..] && mid[k0..] == mid[k..][k0 - k..];
      if r.Err? {
        return;
      }
      PassStep(o, before, a[..r.value], cs, j, v, w);
      k := r.value;
    }
    r := Ok(k);
  }

  /** x is kept by every pinning t among the first n of ts. */
  predicate PinKept<C, T>(ts: seq<C>, n: int, pins: C -> bool, keep: (C, T) -> bool, x: T)
    requires n <= |ts|
  {
    forall j :: 0 <= j < n && pins(ts[j]) ==> keep(ts[j], x)
  }

  /**
   * Step j of the pin stage, for a valid ts[j]: when it pins, a swap pass over a[..k] that
   * drops the elements it does not keep.
   */
  method PinStep<C, T(==)>(a: array<T>, k0: nat, k: nat, ts: seq<C>, j: nat, pins: C -> bool, keep: (C, T) -> bool, ghost o: seq<T>)
    returns (k': nat)
    requires k <= k0 <= a.Length && j < |ts|
    requires forall x :: multiset(a[..k])[x] == if PinKept(ts, j, pins, keep, x) then multiset(o)[x] else 0
    modifies a
    ensures k' <= k
    ensures multiset(a[..]) == multiset(old(a[..]))
    ensures a[k0..] == old(a[k0..])
    ensures forall x :: multiset(a[..k'])[x] == if PinKept(ts, j + 1, pins, keep, x) then multiset(o)[x] else 0
  {
    var t := ts[j];
    k' := k;
    if pins(t) {
      ghost var mid := a[..];
      var w := (m: T) => if keep(t, m) then Keep else Drop;
      assert NoThrow(a[..k], w);
      var r := SwapCompact(a, k, w, "");
      assert a[k0..] == a[k..][k0 - k..] && mid[k0..] == mid[k..][k0 - k..];
      k' := r.value;
    }
    forall x
      ensures multiset(a[..k'])[x] == if PinKept(ts, j + 1, pins, keep, x) then multiset(o)[x] else 0
    {
      assert PinKept(ts, j + 1, pins, keep, x) <==> PinKept(ts, j, pins, keep, x) && (pins(t) ==> keep(t, x));
    }
  }

  /**
   * A pin stage: for each t of ts in turn, an invalid t raises; a t that pins runs a swap pass
   * over the prefix a[..k0] that drops the elements it does not keep. It succeeds exactly when
   * every t is valid, and then leaves exactly the elements every pinning t keeps.
   */
  method PinStage<C, T(==)>(a: array<T>, k0: nat, ts: seq<C>, valid: C -> bool, pins: C -> bool, keep: (C, T) -> bool)
    returns (r: Result<nat>)
    requires k0 <= a.Length
    modifies a
    ensures multiset(a[..]) == multiset(old(a[..]))
    ensures a[k0..] == old(a[k0..])
    ensures r.Ok? <==> forall j :: 0 <= j < |ts| ==> valid(ts[j])
    ensures r.Err? ==> r.reason == "Invalid threaten source"
    ensures r.Ok? ==> r.value <= k0
    ensures r.Ok? ==> forall x :: multiset(a[..r.value])[x] == if PinKept(ts, |ts|, pins, keep, x) then multiset(old(a[..k0]))[x] else 0
  {
    ghost var o := a[..k0];
    var k: nat := k0;
    for j := 0 to |ts|
      invariant k <= k0
      invariant multiset(a[..]) == multiset(old(a[..]))
      invariant a[k0..] == old(a[k0..])
      invariant forall j' :: 0 <= j' < j ==> valid(ts[j'])
      invariant forall x :: multiset(a[..k])[x] == if PinKept(ts, j, pins, keep, x) then multiset(o)[x] else 0
    {
      if !valid(ts[j]) {
        return Err("Invalid threaten source");
      }
      k := PinStep(a, k0, k, ts, j, pins, keep, o);
    }
    r := Ok(k);
  }
}
