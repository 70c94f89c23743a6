/** Sub-sequences selected by a predicate, and how they relate to prefixes. */
module Filters {

  function Filter<T>(s: seq<T>, keep: T -> bool): seq<T>
  {
    if s == [] then []
    else
      var front := Filter(s[..|s| - 1], keep);
      if keep(s[|s| - 1]) then front + [s[|s| - 1]] else front
  }

  lemma {:induction false} FilterConcat<T>(a: seq<T>, b: seq<T>, keep: T -> bool)
    ensures Filter(a + b, keep) == Filter(a, keep) + Filter(b, keep)
    decreases |b|
  {
    if b == [] {
      assert a + b == a;
    } else {
      var last := |b| - 1;
      assert (a + b)[..|a + b| - 1] == a + b[..last];
      FilterConcat(a, b[..last], keep);
    }
  }

  lemma FilterAppend<T>(a: seq<T>, x: T, keep: T -> bool)
    ensures Filter(a + [x], keep) == if keep(x) then Filter(a, keep) + [x] else Filter(a, keep)
  {
    assert (a + [x])[..|a|] == a;
  }

  /** A stronger filter does not notice a weaker one applied first. */
  lemma {:induction false} FilterOfFilter<T(!new)>(s: seq<T>, strong: T -> bool, weak: T -> bool)
    requires forall x :: strong(x) ==> weak(x)
    ensures Filter(Filter(s, weak), strong) == Filter(s, strong)
    decreases |s|
  {
    if s != [] {
      FilterOfFilter(s[..|s| - 1], strong, weak);
      var front := Filter(s[..|s| - 1], weak);
      FilterAppend(front, s[|s| - 1], strong);
    }
  }

  lemma {:induction false} FilterMembers<T>(s: seq<T>, keep: T -> bool)
    ensures forall x :: x in Filter(s, keep) <==> x in s && keep(x)
  {
    if s != [] {
      var front, last := s[..|s| - 1], s[|s| - 1];
      FilterMembers(front, keep);
      assert s == front + [last];
    }
  }

  /** A prefix of a filtered sequence is the filter of a prefix. */
  lemma {:induction false} FilteredPrefix<T>(s: seq<T>, keep: T -> bool, pre: seq<T>, x: T) returns (k: nat)
    requires pre + [x] <= Filter(s, keep)
    ensures k < |s| && s[k] == x && Filter(s[..k], keep) == pre
    decreases |s|
  {
    var last := |s| - 1;
    var front := Filter(s[..last], keep);
    if pre + [x] <= front {
      k := FilteredPrefix(s[..last], keep, pre, x);
      assert s[..last][..k] == s[..k];
    } else {
      assert keep(s[last]) && Filter(s, keep) == front + [s[last]];
      assert |pre| + 1 == |front| + 1;
      assert (pre + [x])[..|pre|] == Filter(s, keep)[..|pre|];
      assert pre == front;
      assert (pre + [x])[|pre|] == Filter(s, keep)[|pre|];
      k := last;
    }
  }

  lemma FilterPrefixes<T>(a: seq<T>, b: seq<T>, keep: T -> bool)
    requires a <= b
    ensures Filter(a, keep) <= Filter(b, keep)
  {
    assert b == a + b[|a|..];
    FilterConcat(a, b[|a|..], keep);
  }
}
