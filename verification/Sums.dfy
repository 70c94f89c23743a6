/** Sums of reals over the elements of a sequence; the order of the elements does not matter. */
module Sums {
  import opened Sequences

  function Total<T>(s: seq<T>, f: T -> real): real
  {
    if s == [] then 0.0 else Total(s[..|s| - 1], f) + f(s[|s| - 1])
  }

  function Indices(n: nat): (r: seq<nat>)
    ensures |r| == n && forall i :: 0 <= i < n ==> r[i] == i
  {
    seq(n, i => i)
  }

  lemma {:induction false} TotalSame<T>(s: seq<T>, f: T -> real, g: T -> real)
    requires forall x :: x in s ==> f(x) == g(x)
    ensures Total(s, f) == Total(s, g)
  {
    if s != [] {
      TotalSame(s[..|s| - 1], f, g);
    }
  }

  lemma {:induction false} TotalMapped<T, U>(a: seq<T>, f: T -> real, b: seq<U>, g: U -> real)
    requires |a| == |b| && forall i :: 0 <= i < |a| ==> f(a[i]) == g(b[i])
    ensures Total(a, f) == Total(b, g)
  {
    if a != [] {
      TotalMapped(a[..|a| - 1], f, b[..|b| - 1], g);
    }
  }

  lemma {:induction false} TotalAppend<T>(a: seq<T>, b: seq<T>, f: T -> real)
    ensures Total(a + b, f) == Total(a, f) + Total(b, f)
  {
    if b == [] {
      assert a + b == a;
    } else {
      TotalAppend(a, b[..|b| - 1], f);
      assert (a + b)[..|a + b| - 1] == a + b[..|b| - 1];
    }
  }

  lemma {:induction false} TotalPlus<T>(s: seq<T>, f: T -> real, g: T -> real, h: T -> real)
    requires forall x :: x in s ==> h(x) == f(x) + g(x)
    ensures Total(s, h) == Total(s, f) + Total(s, g)
  {
    if s != [] {
      TotalPlus(s[..|s| - 1], f, g, h);
      assert s[|s| - 1] in s;
    }
  }

  lemma {:induction false} TotalScaled<T>(s: seq<T>, c: real, f: T -> real, g: T -> real)
    requires forall x :: x in s ==> g(x) == c * f(x)
    ensures Total(s, g) == c * Total(s, f)
  {
    if s != [] {
      TotalScaled(s[..|s| - 1], c, f, g);
      assert s[|s| - 1] in s;
      Distribute(c, Total(s[..|s| - 1], f), f(s[|s| - 1]));
    }
  }

  lemma Distribute(c: real, a: real, b: real)
    ensures c * (a + b) == c * a + c * b
  {
  }

  lemma {:induction false} TotalConstant<T>(s: seq<T>, c: real, f: T -> real)
    requires forall x :: x in s ==> f(x) == c
    ensures Total(s, f) == |s| as real * c
  {
    if s != [] {
      TotalConstant(s[..|s| - 1], c, f);
      assert s[|s| - 1] in s;
      assert |s| as real == (|s| - 1) as real + 1.0;
    }
  }

  lemma {:induction false} TotalNonNegative<T>(s: seq<T>, f: T -> real)
    requires forall x :: x in s ==> f(x) >= 0.0
    ensures Total(s, f) >= 0.0
  {
    if s != [] {
      TotalNonNegative(s[..|s| - 1], f);
      assert s[|s| - 1] in s;
    }
  }

  /** Changing the summand at one element of a sequence without repetitions. */
  lemma {:induction false} TotalChanged<T>(s: seq<T>, f: T -> real, g: T -> real, at: T)
    requires Distinct(s) && at in s && forall x :: x in s && x != at ==> f(x) == g(x)
    ensures Total(s, g) == Total(s, f) - f(at) + g(at)
  {
    var front, last := s[..|s| - 1], s[|s| - 1];
    assert s == front + [last];
    if last == at {
      TotalSame(front, f, g);
    } else {
      TotalChanged(front, f, g, at);
    }
  }

  lemma {:induction false} TotalPermuted<T>(a: seq<T>, b: seq<T>, f: T -> real)
    requires multiset(a) == multiset(b)
    ensures Total(a, f) == Total(b, f)
  {
    if a == [] {
      assert |multiset(b)| == 0;
    } else {
      var front, last := a[..|a| - 1], a[|a| - 1];
      var k := FindIn(a, b, last);
      RemoveSame(a, b, k);
      TotalPermuted(front, b[..k] + b[k + 1..], f);
      TotalWithout(b, k, f);
    }
  }

  lemma TotalWithout<T>(b: seq<T>, k: nat, f: T -> real)
    requires k < |b|
    ensures Total(b, f) == Total(b[..k] + b[k + 1..], f) + f(b[k])
  {
    assert b[..k] + [b[k]] + b[k + 1..] == b;
    hide Total;
    TotalMiddle(b[..k], b[k], b[k + 1..], f);
  }

  lemma TotalMiddle<T>(before: seq<T>, x: T, after: seq<T>, f: T -> real)
    ensures Total(before + [x] + after, f) == Total(before + after, f) + f(x)
  {
    hide Total;
    TotalOne(x, f);
    TotalAppend(before + [x], after, f);
    TotalAppend(before, [x], f);
    TotalAppend(before, after, f);
  }

  lemma TotalOne<T>(x: T, f: T -> real)
    ensures Total([x], f) == f(x)
  {
    assert [x][..0] == [];
  }

  /** The two orders of a double sum: `f` by rows and `h` by columns. */
  lemma {:induction false} TotalSwapped<T(!new),
      U(!new)>(a: seq<T>, b: seq<U>, f: T -> U -> real, h: U -> T -> real, rows: T -> real, columns: U -> real)
    requires forall x, y :: f(x)(y) == h(y)(x)
    requires forall x :: x in a ==> rows(x) == Total(b, f(x))
    requires forall y :: y in b ==> columns(y) == Total(a, h(y))
    ensures Total(a, rows) == Total(b, columns)
  {
    if a == [] {
      TotalConstant(b, 0.0, columns);
    } else {
      var front, last := a[..|a| - 1], a[|a| - 1];
      var before := (y: U) => Total(front, h(y));
      assert last in a && forall x :: x in front ==> x in a;
      TotalSwapped(front, b, f, h, rows, before);
      forall y | y in b
        ensures columns(y) == before(y) + f(last)(y)
      {
        SplitLast(a, h(y));
      }
      TotalPlus(b, before, f(last), columns);
      SplitLast(a, rows);
    }
  }

  lemma SplitLast<T>(s: seq<T>, f: T -> real)
    requires s != []
    ensures Total(s, f) == Total(s[..|s| - 1], f) + f(s[|s| - 1])
  {
  }

  function Count(row: seq<nat>, x: nat): nat
  {
    multiset(row)[x]
  }

  /** What the value `x` contributes to the sum of `f` over `row`. */
  function ByValue(row: seq<nat>, f: nat -> real): nat -> real
  {
    (x: nat) => Count(row, x) as real * f(x)
  }

  lemma NoneCounted(row: seq<nat>, f: nat -> real, x: nat)
    requires row == []
    ensures ByValue(row, f)(x) == 0.0
  {
    assert Count(row, x) == 0;
    assert 0 as real * f(x) == 0.0;
  }

  /** Sum over the elements of a row, grouped by value. */
  lemma {:induction false} TotalByValue(n: nat, row: seq<nat>, f: nat -> real)
    requires forall x :: x in row ==> x < n
    ensures Total(row, f) == Total(Indices(n), ByValue(row, f))
  {
    if row == [] {
      forall x: nat
        ensures ByValue(row, f)(x) == 0.0
      {
        NoneCounted(row, f, x);
      }
      hide ByValue;
      TotalConstant(Indices(n), 0.0, ByValue(row, f));
    } else {
      var front, last := row[..|row| - 1], row[|row| - 1];
      assert last in row && forall x :: x in front ==> x in row;
      TotalByValue(n, front, f);
      InIndices(n, last);
      SplitLast(row, f);
      hide *;
      forall x: nat
        ensures ByValue(row, f)(x) == ByValue(front, f)(x) + if x == last then f(x) else 0.0
      {
        ByValueLast(row, f, x);
      }
      TotalChanged(Indices(n), ByValue(front, f), ByValue(row, f), last);
    }
  }

  lemma ByValueLast(row: seq<nat>, f: nat -> real, x: nat)
    requires row != []
    ensures ByValue(row, f)(x) == ByValue(row[..|row| - 1], f)(x) + if x == row[|row| - 1] then f(x) else 0.0
  {
    CountLast(row);
    hide Count;
    OneMore(Count(row[..|row| - 1], x), f(x));
  }

  lemma InIndices(n: nat, x: nat)
    requires x < n
    ensures x in Indices(n) && Distinct(Indices(n))
  {
    assert Indices(n)[x] == x;
  }

  lemma CountLast(row: seq<nat>)
    requires row != []
    ensures forall x :: Count(row, x) == Count(row[..|row| - 1], x) + if x == row[|row| - 1] then 1 else 0
  {
    assert row == row[..|row| - 1] + [row[|row| - 1]];
  }

  lemma OneMore(k: nat, c: real)
    ensures (k + 1) as real * c == k as real * c + c
  {
    assert (k + 1) as real == k as real + 1.0;
    assert (k as real + 1.0) * c == k as real * c + c;
  }
}
