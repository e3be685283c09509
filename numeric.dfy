/** Arithmetic helpers with Python's meaning: `sum`, `int()` of a float,
    and counting over 0/1 flags. */
module Numeric {

  /** Python's `sum`: a left fold from 0 over the sequence. */
  function Sum(s: seq<real>): real
  {
    if s == [] then 0.0 else Sum(s[..|s| - 1]) + s[|s| - 1]
  }

  lemma SumAppend(s: seq<real>, x: real)
    ensures Sum(s + [x]) == Sum(s) + x
  {
    assert (s + [x])[..|s|] == s;
  }

  lemma {:induction false} SumNonNegative(s: seq<real>)
    requires forall i :: 0 <= i < |s| ==> s[i] >= 0.0
    ensures Sum(s) >= 0.0
  {
    if s != [] {
      SumNonNegative(s[..|s| - 1]);
    }
  }

  /** Python's `int(x)` on a float: truncation toward zero. The two
      ensures clauses pin the result down uniquely. */
  function Trunc(x: real): (n: int)
    ensures 0.0 <= x ==> 0 <= n && n as real <= x < n as real + 1.0
    ensures x < 0.0 ==> n <= 0 && n as real - 1.0 < x <= n as real
  {
    if x >= 0.0 then x.Floor else -((-x).Floor)
  }

  lemma MulNonNegative(x: real, y: real)
    requires x >= 0.0 && y >= 0.0
    ensures x * y >= 0.0
  {
  }

  lemma FractionBelowOne(r: real, b: real)
    requires b > 0.0 && 0.0 <= r < b
    ensures 0.0 <= r / b < 1.0
  {
    var f := r / b;
    assert f * b == r;
    if f < 0.0 {
      MulNonNegative(-f, b);
    }
    if f >= 1.0 {
      MulNonNegative(f - 1.0, b);
    }
  }

  lemma QuotientBounds(q: int, rem: int, b: int)
    requires b > 0 && 0 <= rem < b
    ensures q as real <= (q * b + rem) as real / b as real < q as real + 1.0
  {
    var br := b as real;
    assert (q * b + rem) as real == q as real * br + rem as real;
    assert (q as real * br + rem as real) / br == q as real + rem as real / br;
    FractionBelowOne(rem as real, br);
  }

  lemma TruncUnique(x: real, q: int)
    requires x >= 0.0 && q as real <= x < q as real + 1.0
    ensures Trunc(x) == q
  {
  }

  lemma QuotientZero(a: int, b: int)
    requires a >= 0 && b > 0
    ensures a / b == 0 <==> a < b
  {
  }

  /** `int(a / b)` on integers: the quotient rounded toward zero, which for
      a non-negative dividend and a positive divisor is integer division. */
  lemma TruncOfQuotient(a: int, b: int)
    requires b != 0
    ensures a >= 0 && b > 0 ==> Trunc(a as real / b as real) == a / b
    ensures a >= 0 && b < 0 ==> Trunc(a as real / b as real) == -(a / -b)
  {
    if a >= 0 {
      var d := if b > 0 then b else -b;
      var q := a / d;
      assert a == q * d + a % d;
      QuotientBounds(q, a % d, d);
      TruncUnique(a as real / d as real, q);
      if b < 0 {
        assert a as real / b as real == -(a as real / d as real);
      }
    }
  }

  /** `len(range(k))`: k when positive, otherwise 0. The two cases of the
      body are repeated as ensures so that callers see them without
      unfolding the function. */
  function RangeLength(k: int): (n: nat)
    ensures k > 0 ==> n == k
    ensures k <= 0 ==> n == 0
  {
    if k > 0 then k else 0
  }

  /** The number of elements equal to 1. */
  function CountOnes(s: seq<real>): nat
  {
    if s == [] then 0
    else CountOnes(s[..|s| - 1]) + (if s[|s| - 1] == 1.0 then 1 else 0)
  }

  predicate IsFlagSeq(s: seq<real>)
  {
    forall i :: 0 <= i < |s| ==> s[i] == 0.0 || s[i] == 1.0
  }

  /** Summing 0/1 flags counts the ones, and the count is at most the length. */
  lemma {:induction false} SumOfFlags(s: seq<real>)
    requires IsFlagSeq(s)
    ensures Sum(s) == CountOnes(s) as real
    ensures CountOnes(s) <= |s|
  {
    if s != [] {
      SumOfFlags(s[..|s| - 1]);
    }
  }

  lemma {:induction false} SumConcat(a: seq<real>, b: seq<real>)
    ensures Sum(a + b) == Sum(a) + Sum(b)
  {
    if b == [] {
      assert a + b == a;
    } else {
      var c := a + b;
      assert c[..|c| - 1] == a + b[..|b| - 1];
      assert c[|c| - 1] == b[|b| - 1];
      SumConcat(a, b[..|b| - 1]);
    }
  }

  /** A sum does not depend on the order of its terms. */
  lemma {:induction false} SumPermutation(a: seq<real>, b: seq<real>)
    requires multiset(a) == multiset(b)
    ensures Sum(a) == Sum(b)
    decreases |a|
  {
    if a == [] {
      assert |b| == |multiset(b)| == 0;
    } else {
      var n := |a|;
      var x := a[n - 1];
      assert a == a[..n - 1] + [x];
      assert x in multiset(b);
      var j :| 0 <= j < |b| && b[j] == x;
      RemoveAt(b, j);
      SumPermutation(a[..n - 1], b[..j] + b[j + 1..]);
      SumAppend(a[..n - 1], x);
    }
  }

  /** Taking element j out of a list removes one copy of it from the
      multiset and its value from the sum. */
  lemma RemoveAt(b: seq<real>, j: nat)
    requires j < |b|
    ensures multiset(b[..j] + b[j + 1..]) == multiset(b) - multiset{b[j]}
    ensures Sum(b) == Sum(b[..j] + b[j + 1..]) + b[j]
  {
    var l, x, r := b[..j], b[j], b[j + 1..];
    SplitAt(b, j);
    MultisetOfSplit(l, x, r);
    SumOfSplit(l, x, r);
  }

  lemma SplitAt(b: seq<real>, j: nat)
    requires j < |b|
    ensures b == (b[..j] + [b[j]]) + b[j + 1..]
  {
    assert b[..j + 1] == b[..j] + [b[j]];
  }

  lemma MultisetOfSplit(l: seq<real>, x: real, r: seq<real>)
    ensures multiset(l + r) == multiset((l + [x]) + r) - multiset{x}
  {
    assert multiset((l + [x]) + r) == multiset(l) + multiset{x} + multiset(r);
  }

  lemma SumOfSplit(l: seq<real>, x: real, r: seq<real>)
    ensures Sum((l + [x]) + r) == Sum(l + r) + x
  {
    SumConcat(l + [x], r);
    SumAppend(l, x);
    SumConcat(l, r);
  }
}
