/** Permutations of sequences. */
module Sequences {

  ghost predicate Distinct<T>(s: seq<T>)
  {
    forall i, j :: 0 <= i < j < |s| ==> s[i] != s[j]
  }

  /** Two sequences without repetitions and with the same elements are permutations of each other. */
  lemma DistinctPermutation<T>(a: seq<T>, b: seq<T>)
    requires Distinct(a) && Distinct(b) && forall x :: x in a <==> x in b
    ensures multiset(a) == multiset(b)
  {
    forall x
      ensures multiset(a)[x] == multiset(b)[x]
    {
      DistinctCount(a, x);
      DistinctCount(b, x);
    }
  }

  lemma {:induction false} DistinctCount<T>(s: seq<T>, x: T)
    requires Distinct(s)
    ensures multiset(s)[x] == if x in s then 1 else 0
  {
    if s != [] {
      var front, last := s[..|s| - 1], s[|s| - 1];
      assert s == front + [last];
      DistinctCount(front, x);
    }
  }

  lemma {:induction false} DistinctSize<T>(s: seq<T>, elements: set<T>)
    requires Distinct(s) && forall x :: x in s <==> x in elements
    ensures |s| == |elements|
  {
    if s == [] {
      assert elements == {};
    } else {
      var front, last := s[..|s| - 1], s[|s| - 1];
      assert s == front + [last];
      DistinctSize(front, elements - {last});
    }
  }

  lemma FindIn<T>(a: seq<T>, b: seq<T>, x: T) returns (k: nat)
    requires multiset(a) == multiset(b) && x in a
    ensures k < |b| && b[k] == x
  {
    assert x in multiset(b);
    k :| 0 <= k < |b| && b[k] == x;
  }

  lemma RemoveSame<T>(a: seq<T>, b: seq<T>, k: nat)
    requires multiset(a) == multiset(b) && a != [] && k < |b| && b[k] == a[|a| - 1]
    ensures multiset(a[..|a| - 1]) == multiset(b[..k] + b[k + 1..])
  {
    var front, last := a[..|a| - 1], a[|a| - 1];
    assert a == front + [last];
    var before, after := b[..k], b[k + 1..];
    assert b == before + [last] + after;
    assert multiset(front) + multiset{last} == multiset(before) + multiset{last} + multiset(after);
    assert multiset(front) == multiset(a) - multiset{last};
    assert multiset(before + after) == multiset(before) + multiset(after) == multiset(b) - multiset{last};
  }

  function Mapped<T, U>(s: seq<T>, f: T -> U): (r: seq<U>)
    ensures |r| == |s| && forall i :: 0 <= i < |s| ==> r[i] == f(s[i])
  {
    seq(|s|, i requires 0 <= i < |s| => f(s[i]))
  }

  /** The image of a permutation is a permutation of the image. */
  lemma {:induction false} MappedPermuted<T, U>(a: seq<T>, b: seq<T>, f: T -> U)
    requires multiset(a) == multiset(b)
    ensures multiset(Mapped(a, f)) == multiset(Mapped(b, f))
  {
    if a == [] {
      assert |multiset(b)| == 0;
    } else {
      var k := FindIn(a, b, a[|a| - 1]);
      RemoveSame(a, b, k);
      MappedPermuted(a[..|a| - 1], b[..k] + b[k + 1..], f);
      MappedWithout(a, |a| - 1, f);
      MappedWithout(b, k, f);
      assert a[..|a| - 1] + a[|a|..] == a[..|a| - 1];
    }
  }

  lemma MappedWithout<T, U>(b: seq<T>, k: nat, f: T -> U)
    requires k < |b|
    ensures multiset(Mapped(b, f)) == multiset(Mapped(b[..k] + b[k + 1..], f)) + multiset{f(b[k])}
  {
    var left, right := b[..k], b[k + 1..];
    assert b == (left + [b[k]]) + right;
    MappedAppend(left + [b[k]], right, f);
    MappedAppend(left, [b[k]], f);
    MappedAppend(left, right, f);
    assert Mapped([b[k]], f) == [f(b[k])];
  }

  lemma MappedAppend<T, U>(a: seq<T>, b: seq<T>, f: T -> U)
    ensures Mapped(a + b, f) == Mapped(a, f) + Mapped(b, f)
  {
  }
}
