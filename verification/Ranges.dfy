/**
 Small notions that several modules share: index sets, sorted sequences, products, the largest signed 64-bit integer.
 */
module Ranges {

  const INT64_MAX: nat := 0x7fff_ffff_ffff_ffff

  ghost predicate Increasing(s: seq<nat>)
  {
    forall i, j :: 0 <= i < j < |s| ==> s[i] < s[j]
  }

  /** The indices below `n`. */
  function UpTo(n: nat): (r: set<nat>)
    ensures forall x: nat :: x in r <==> x < n
    ensures |r| == n
  {
    if n == 0 then {} else UpTo(n - 1) + {n - 1}
  }

  /** The indices in `[lo, hi)`. */
  function Between(lo: nat, hi: nat): (r: set<nat>)
    requires lo <= hi
    ensures forall x: nat :: x in r <==> lo <= x < hi
    ensures |r| == hi - lo
    decreases hi - lo
  {
    if lo == hi then {} else Between(lo, hi - 1) + {hi - 1}
  }

  lemma {:induction false} SubsetSize<T>(a: set<T>, b: set<T>)
    requires a <= b
    ensures |a| <= |b|
    ensures |a| == |b| ==> a == b
  {
    if a != {} {
      var x :| x in a;
      SubsetSize(a - {x}, b - {x});
    }
  }

  /** Multiplication is monotone. */
  lemma {:induction false} MulMonotone(k: nat, a: nat, b: nat)
    requires a <= b
    ensures k * a <= k * b
    decreases b
  {
    if a < b {
      MulMonotone(k, a, b - 1);
      assert k * b == k * (b - 1) + k;
    }
  }
}
