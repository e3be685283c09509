/** Python's `statistics.median` over reals: sort, then take the middle
    element, or the mean of the two middle elements for an even count. */
module Statistics {

  predicate IsSorted(s: seq<real>)
  {
    forall i, j :: 0 <= i < j < |s| ==> s[i] <= s[j]
  }

  /** Insertion of x into sorted data, in front of the first element not below x. */
  function Insert(x: real, t: seq<real>): seq<real>
  {
    if t == [] then [x]
    else if x <= t[0] then [x] + t
    else [t[0]] + Insert(x, t[1..])
  }

  /** Insertion keeps the data sorted and adds exactly x. */
  lemma {:induction false} InsertSorts(x: real, t: seq<real>)
    requires IsSorted(t)
    ensures IsSorted(Insert(x, t))
    ensures multiset(Insert(x, t)) == multiset(t) + multiset{x}
  {
    if t == [] {
    } else if x <= t[0] {
      PrependSorted(x, t);
    } else {
      var rest := Insert(x, t[1..]);
      InsertSorts(x, t[1..]);
      assert t == [t[0]] + t[1..];
      forall i | 0 <= i < |rest|
        ensures t[0] <= rest[i]
      {
        assert rest[i] in multiset(rest);
        assert rest[i] == x || rest[i] in t[1..];
      }
      PrependSorted(t[0], rest);
    }
  }

  /** Putting an element no greater than the head in front keeps data sorted. */
  lemma PrependSorted(x: real, t: seq<real>)
    requires IsSorted(t)
    requires forall i :: 0 <= i < |t| ==> x <= t[i]
    ensures IsSorted([x] + t)
  {
    var u := [x] + t;
    forall i, j | 0 <= i < j < |u|
      ensures u[i] <= u[j]
    {
      assert u[j] == t[j - 1];
      if i > 0 { assert u[i] == t[i - 1]; }
    }
  }

  /** `sorted(data)`: insertion sort. */
  function Sort(s: seq<real>): seq<real>
  {
    if s == [] then []
    else Insert(s[|s| - 1], Sort(s[..|s| - 1]))
  }

  /** `sorted(data)` is an ascending permutation of the data. */
  lemma {:induction false} SortSorts(s: seq<real>)
    ensures IsSorted(Sort(s))
    ensures multiset(Sort(s)) == multiset(s)
    ensures |Sort(s)| == |s|
  {
    if s != [] {
      SortSorts(s[..|s| - 1]);
      InsertSorts(s[|s| - 1], Sort(s[..|s| - 1]));
      assert s == s[..|s| - 1] + [s[|s| - 1]];
    }
    assert |Sort(s)| == |multiset(Sort(s))| == |multiset(s)| == |s|;
  }

  /** Two ascending permutations of one multiset start with the same element. */
  lemma SortedSameHead(a: seq<real>, b: seq<real>)
    requires IsSorted(a) && IsSorted(b)
    requires multiset(a) == multiset(b) && a != []
    ensures b != [] && a[0] == b[0]
  {
    assert a[0] in multiset(b);
    assert b != [];
    assert b[0] in multiset(a);
    var i :| 0 <= i < |b| && b[i] == a[0];
    var j :| 0 <= j < |a| && a[j] == b[0];
  }

  /** Dropping the head of sorted data leaves sorted data with one copy of
      the head fewer. */
  lemma DropHead(a: seq<real>)
    requires IsSorted(a) && a != []
    ensures IsSorted(a[1..])
    ensures multiset(a[1..]) == multiset(a) - multiset{a[0]}
  {
    assert a == [a[0]] + a[1..];
  }

  /** There is only one ascending permutation of a multiset. */
  lemma {:induction false} SortedUnique(a: seq<real>, b: seq<real>)
    requires IsSorted(a) && IsSorted(b)
    requires multiset(a) == multiset(b)
    ensures a == b
  {
    if a == [] {
      assert |b| == |multiset(b)| == 0;
    } else {
      SortedSameHead(a, b);
      DropHead(a);
      DropHead(b);
      SortedUnique(a[1..], b[1..]);
      assert a == [a[0]] + a[1..] && b == [b[0]] + b[1..];
    }
  }

  function Min(s: seq<real>): real
    requires |s| > 0
  {
    if |s| == 1 then s[0]
    else
      var m := Min(s[..|s| - 1]);
      if s[|s| - 1] < m then s[|s| - 1] else m
  }

  function Max(s: seq<real>): real
    requires |s| > 0
  {
    if |s| == 1 then s[0]
    else
      var m := Max(s[..|s| - 1]);
      if s[|s| - 1] > m then s[|s| - 1] else m
  }

  /** Min and Max bound every element and are elements themselves. */
  lemma {:induction false} MinMaxBound(s: seq<real>)
    requires |s| > 0
    ensures forall i :: 0 <= i < |s| ==> Min(s) <= s[i] <= Max(s)
    ensures Min(s) in s && Max(s) in s
  {
    if |s| > 1 {
      MinMaxBound(s[..|s| - 1]);
      assert forall i :: 0 <= i < |s| - 1 ==> s[i] == s[..|s| - 1][i];
    }
  }

  /** The middle of sorted data: the middle element, or the mean of the
      two middle elements for an even count. */
  function Middle(t: seq<real>): real
    requires |t| > 0
  {
    var n := |t|;
    if n % 2 == 1 then t[n / 2] else (t[n / 2 - 1] + t[n / 2]) / 2.0
  }

  /** `statistics.median(data)` for non-empty data. */
  function Median(s: seq<real>): real
    requires |s| > 0
  {
    SortSorts(s);
    Middle(Sort(s))
  }

  /** The median lies between the smallest and the largest element. */
  lemma MedianWithinRange(s: seq<real>)
    requires |s| > 0
    ensures Min(s) <= Median(s) <= Max(s)
  {
    var t := Sort(s);
    SortSorts(s);
    MinMaxBound(s);
    assert forall i :: 0 <= i < |t| ==> t[i] in multiset(s);
    assert t[|t| / 2] in multiset(s);
    if |t| % 2 == 0 { assert t[|t| / 2 - 1] in multiset(s); }
  }

  /** The median depends only on the multiset of the data, not on its order:
      the order in which runs finish does not change an aggregate. */
  lemma MedianOfPermutation(a: seq<real>, b: seq<real>)
    requires |a| > 0 && multiset(a) == multiset(b)
    ensures |b| > 0 && Median(a) == Median(b)
  {
    assert |b| == |multiset(b)| == |multiset(a)| == |a|;
    SortSorts(a);
    SortSorts(b);
    SortedUnique(Sort(a), Sort(b));
  }

  /** How many elements satisfy p. */
  function Count(s: seq<real>, p: real -> bool): nat
  {
    if s == [] then 0 else Count(s[..|s| - 1], p) + (if p(s[|s| - 1]) then 1 else 0)
  }

  function AtMost(m: real): real -> bool
  {
    x => x <= m
  }

  function AtLeast(m: real): real -> bool
  {
    x => x >= m
  }

  lemma {:induction false} CountConcat(a: seq<real>, b: seq<real>, p: real -> bool)
    ensures Count(a + b, p) == Count(a, p) + Count(b, p)
  {
    if b == [] {
      assert a + b == a;
    } else {
      var c := a + b;
      assert c[..|c| - 1] == a + b[..|b| - 1];
      assert c[|c| - 1] == b[|b| - 1];
      CountConcat(a, b[..|b| - 1], p);
    }
  }

  lemma {:induction false} CountInsert(x: real, t: seq<real>, p: real -> bool)
    ensures Count(Insert(x, t), p) == Count(t, p) + (if p(x) then 1 else 0)
  {
    assert [x][..0] == [];
    if t != [] && x <= t[0] {
      CountConcat([x], t, p);
    } else if t != [] {
      CountInsert(x, t[1..], p);
      CountConcat([t[0]], Insert(x, t[1..]), p);
      CountConcat([t[0]], t[1..], p);
      assert t == [t[0]] + t[1..];
      assert [t[0]][..0] == [];
    }
  }

  /** Sorting keeps every count. */
  lemma {:induction false} CountSort(s: seq<real>, p: real -> bool)
    ensures Count(Sort(s), p) == Count(s, p)
  {
    if s != [] {
      CountSort(s[..|s| - 1], p);
      CountInsert(s[|s| - 1], Sort(s[..|s| - 1]), p);
    }
  }

  /** A prefix of k elements satisfying p contributes k to the count. */
  lemma {:induction false} CountPrefix(t: seq<real>, k: nat, p: real -> bool)
    requires k <= |t|
    requires forall i :: 0 <= i < k ==> p(t[i])
    ensures Count(t, p) >= k
  {
    if |t| > 0 {
      var u := t[..|t| - 1];
      var k' := if k == |t| then k - 1 else k;
      assert forall i :: 0 <= i < k' ==> p(u[i]) by {
        forall i | 0 <= i < k' ensures p(u[i]) { assert u[i] == t[i]; }
      }
      CountPrefix(u, k', p);
    }
  }

  /** A suffix of k elements satisfying p contributes k to the count. */
  lemma {:induction false} CountSuffix(t: seq<real>, k: nat, p: real -> bool)
    requires k <= |t|
    requires forall i :: |t| - k <= i < |t| ==> p(t[i])
    ensures Count(t, p) >= k
  {
    if k > 0 {
      var u := t[..|t| - 1];
      assert forall i :: |u| - (k - 1) <= i < |u| ==> p(u[i]) by {
        forall i | |u| - (k - 1) <= i < |u| ensures p(u[i]) { assert u[i] == t[i]; }
      }
      CountSuffix(u, k - 1, p);
    }
  }

  /** In sorted data at least half the elements lie on each side of the middle. */
  lemma SortedMiddleSplits(t: seq<real>)
    requires IsSorted(t) && |t| > 0
    ensures 2 * Count(t, AtMost(Middle(t))) >= |t|
    ensures 2 * Count(t, AtLeast(Middle(t))) >= |t|
  {
    var m, n := Middle(t), |t|;
    var half := if n % 2 == 1 then n / 2 + 1 else n / 2;
    assert forall i :: 0 <= i < half ==> AtMost(m)(t[i]) by {
      forall i | 0 <= i < half ensures t[i] <= m {
        if n % 2 == 0 { assert t[i] <= t[n / 2 - 1] <= t[n / 2]; }
      }
    }
    assert forall i :: n - half <= i < n ==> AtLeast(m)(t[i]) by {
      forall i | n - half <= i < n ensures t[i] >= m {
        if n % 2 == 0 { assert t[n / 2 - 1] <= t[n / 2] <= t[i]; }
      }
    }
    CountPrefix(t, half, AtMost(m));
    CountSuffix(t, half, AtLeast(m));
  }

  /** At least half of the data lies at or below the median, and at least
      half at or above it. */
  lemma MedianSplitsInHalf(s: seq<real>)
    requires |s| > 0
    ensures 2 * Count(s, AtMost(Median(s))) >= |s|
    ensures 2 * Count(s, AtLeast(Median(s))) >= |s|
  {
    var t := Sort(s);
    SortSorts(s);
    SortedMiddleSplits(t);
    CountSort(s, AtMost(Middle(t)));
    CountSort(s, AtLeast(Middle(t)));
  }
}
