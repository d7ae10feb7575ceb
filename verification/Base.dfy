/** Types and facts shared by every part of the model. */
module Base {

  type Byte = x: int | 0 <= x < 0x100

  datatype Option<+T> = None | Some(value: T)

  function One(b: bool): nat { if b then 1 else 0 }

  /** How many of them are true. */
  function Count(bs: seq<bool>): (n: nat) {
    if bs == [] then 0 else Count(bs[..|bs| - 1]) + One(bs[|bs| - 1])
  }

  lemma {:induction false} CountAll(bs: seq<bool>)
    ensures Count(bs) <= |bs|
    ensures Count(bs) == |bs| <==> forall i :: 0 <= i < |bs| ==> bs[i]
  {
    if bs != [] {
      CountAll(bs[..|bs| - 1]);
    }
  }

  function Missing<T>(thread: Option<T>): nat { if thread.Some? then 0 else 1 }

  function AllMissing<T>(threads: seq<Option<T>>): nat {
    if threads == [] then 0 else AllMissing(threads[..|threads| - 1]) + Missing(threads[|threads| - 1])
  }

  lemma {:induction false} NoneMissing<T>(threads: seq<Option<T>>)
    ensures AllMissing(threads) == 0 <==> forall k :: 0 <= k < |threads| ==> threads[k].Some?
  {
    if threads != [] {
      NoneMissing(threads[..|threads| - 1]);
    }
  }

  /** `r` is what `keep` leaves of `xs`, in order. */
  ghost predicate Filtered<T(!new)>(xs: seq<T>, keep: seq<bool>, r: seq<T>) {
    && |keep| == |xs| && |r| == Count(keep)
    && forall p :: 0 <= p < |xs| && keep[p] ==> Count(keep[..p]) < |r| && r[Count(keep[..p])] == xs[p]
  }

  lemma FilteredNext<T(!new)>(xs: seq<T>, keep: seq<bool>, r: seq<T>, x: T, b: bool)
    requires Filtered(xs, keep, r)
    ensures Filtered(xs + [x], keep + [b], if b then r + [x] else r)
  {
    var keep' := keep + [b];
    assert keep'[..|keep|] == keep;
    forall p | 0 <= p < |xs| && keep[p]
      ensures keep'[..p] == keep[..p]
    {
    }
  }

  /** Fewer than `n` numbers cannot cover a range of length `n`. */
  lemma {:induction false} Pigeonhole(lo: int, n: nat, s: set<int>)
    requires |s| < n
    ensures exists p :: lo <= p < lo + n && p !in s
  {
    var last := lo + n - 1;
    if last in s {
      Pigeonhole(lo, n - 1, s - {last});
      var p :| lo <= p < last && p !in s - {last};
      assert p !in s;
    }
  }

  lemma SubsetSize<T>(a: set<T>, b: set<T>)
    requires a <= b
    ensures |a| <= |b|
  {
    assert b == a + (b - a);
  }

  lemma Associative<T>(a: seq<T>, b: seq<T>, c: seq<T>)
    ensures (a + b) + c == a + (b + c)
  {
  }
}
