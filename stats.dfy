/**
  Summary statistics over the read lengths of one FASTQ file: the arithmetic
  mean, the extrema and the median, as Python's `sum(...)/len(...)`, `min`,
  `max` and `statistics.median` compute them. Python floats are modelled as
  exact reals.
*/
module Stats {

  function Sum(s: seq<int>): int
  {
    if |s| == 0 then 0 else s[0] + Sum(s[1..])
  }

  function SumReal(s: seq<real>): real
  {
    if |s| == 0 then 0.0 else s[0] + SumReal(s[1..])
  }

  /** `min(s)`: an element of `s` that no element is below. */
  function Min(s: seq<int>): (m: int)
    requires |s| > 0
    ensures m in s
    ensures forall x :: x in s ==> m <= x
  {
    if |s| == 1 then s[0]
    else
      var rest := Min(s[1..]);
      assert forall x :: x in s ==> x == s[0] || x in s[1..];
      if s[0] <= rest then s[0] else rest
  }

  /** `max(s)`: an element of `s` that no element is above. */
  function Max(s: seq<int>): (m: int)
    requires |s| > 0
    ensures m in s
    ensures forall x :: x in s ==> x <= m
  {
    if |s| == 1 then s[0]
    else
      var rest := Max(s[1..]);
      assert forall x :: x in s ==> x == s[0] || x in s[1..];
      if s[0] >= rest then s[0] else rest
  }

  /** `sum(s) / len(s)` with true division: the value whose |s|-fold is the sum. */
  function Mean(s: seq<int>): (r: real)
    requires |s| > 0
    ensures r * (|s| as real) == Sum(s) as real
  {
    (Sum(s) as real) / (|s| as real)
  }

  /** The mean of the per-read quality values of one column. */
  function MeanReal(s: seq<real>): (r: real)
    requires |s| > 0
    ensures r * (|s| as real) == SumReal(s)
  {
    SumReal(s) / (|s| as real)
  }

  /** Each element is at most the next one. */
  predicate Ascending(s: seq<int>)
    decreases |s|
  {
    |s| <= 1 || (s[0] <= s[1] && Ascending(s[1..]))
  }

  /** Ascending means every element is at most every later element. */
  lemma {:induction false} AscendingPairwise(s: seq<int>)
    ensures Ascending(s) <==> forall i, j :: 0 <= i < j < |s| ==> s[i] <= s[j]
    decreases |s|
  {
    if |s| >= 2 {
      AscendingPairwise(s[1..]);
      if Ascending(s) {
        forall i, j | 0 <= i < j < |s|
          ensures s[i] <= s[j]
        {
          if i > 0 {
            assert s[i] == s[1..][i - 1] && s[j] == s[1..][j - 1];
          } else if j > 1 {
            assert s[1] == s[1..][0] && s[j] == s[1..][j - 1];
          }
        }
      }
      if forall i, j :: 0 <= i < j < |s| ==> s[i] <= s[j] {
        assert s[0] <= s[1];
        forall i, j | 0 <= i < j < |s[1..]|
          ensures s[1..][i] <= s[1..][j]
        {
          assert s[1..][i] == s[i + 1] && s[1..][j] == s[j + 1];
        }
      }
    }
  }

  /** The tail of a sequence holds its elements but the head. */
  lemma TailMultiset(a: seq<int>)
    requires |a| > 0
    ensures multiset(a[1..]) == multiset(a) - multiset{a[0]}
    ensures multiset(a) == multiset{a[0]} + multiset(a[1..])
  {
    assert a == [a[0]] + a[1..];
  }

  /** The first element of an ascending sequence is below every element. */
  lemma {:induction false} AscendingHeadLeast(a: seq<int>, x: int)
    requires Ascending(a) && x in multiset(a)
    ensures a[0] <= x
    decreases |a|
  {
    if a[0] != x {
      TailMultiset(a);
      assert x in multiset(a[1..]);
      AscendingHeadLeast(a[1..], x);
      assert a[1..][0] == a[1];
    }
  }

  /** Inserting an element above the head keeps the head in front. */
  lemma InsertBelowHead(x: int, t: seq<int>, rest: seq<int>)
    requires |t| > 0 && Ascending(t) && t[0] < x && |rest| > 0
    requires multiset(rest) == multiset(t[1..]) + multiset{x}
    ensures t[0] <= rest[0]
  {
    assert rest[0] in multiset(rest);
    if rest[0] != x {
      TailMultiset(t);
      assert rest[0] in multiset(t);
      AscendingHeadLeast(t, rest[0]);
    }
  }

  function Insert(x: int, t: seq<int>): (r: seq<int>)
    requires Ascending(t)
    ensures Ascending(r)
    ensures multiset(r) == multiset(t) + multiset{x}
    ensures |r| == |t| + 1
  {
    if |t| == 0 then [x]
    else if x <= t[0] then
      assert ([x] + t)[1..] == t;
      [x] + t
    else
      var rest := Insert(x, t[1..]);
      InsertBelowHead(x, t, rest);
      TailMultiset(t);
      assert ([t[0]] + rest)[1..] == rest;
      [t[0]] + rest
  }

  /** `sorted(s)`: an ascending permutation of `s`. */
  function Sort(s: seq<int>): (r: seq<int>)
    ensures Ascending(r)
    ensures multiset(r) == multiset(s)
    ensures |r| == |s|
  {
    if |s| == 0 then []
    else
      assert s == [s[0]] + s[1..];
      Insert(s[0], Sort(s[1..]))
  }

  /** Two ascending permutations of each other start with the same element. */
  lemma AscendingHeadsEqual(a: seq<int>, b: seq<int>)
    requires |a| > 0 && |b| > 0
    requires Ascending(a) && Ascending(b) && multiset(a) == multiset(b)
    ensures a[0] == b[0]
  {
    assert b[0] in multiset(b) && a[0] in multiset(a);
    AscendingHeadLeast(a, b[0]);
    AscendingHeadLeast(b, a[0]);
  }

  /** An ascending permutation is unique: `Sort` is determined by its contract. */
  lemma {:induction false} AscendingPermutationUnique(a: seq<int>, b: seq<int>)
    requires Ascending(a) && Ascending(b) && multiset(a) == multiset(b)
    ensures a == b
    decreases |a|
  {
    assert |a| == |multiset(a)| == |multiset(b)| == |b|;
    if |a| > 0 {
      AscendingHeadsEqual(a, b);
      TailMultiset(a);
      TailMultiset(b);
      AscendingPermutationUnique(a[1..], b[1..]);
      assert a == [a[0]] + a[1..] && b == [b[0]] + b[1..];
    }
  }

  /** Sorting gives any ascending permutation of the input. */
  lemma SortIsAscendingPermutation(s: seq<int>, t: seq<int>)
    requires Ascending(t) && multiset(s) == multiset(t)
    ensures Sort(s) == t
  {
    AscendingPermutationUnique(Sort(s), t);
  }

  /**
    `statistics.median(s)`: the middle element of the sorted data when the
    count is odd, the mean of the two middle elements when it is even.
  */
  function Median(s: seq<int>): real
    requires |s| > 0
  {
    Middle(Sort(s))
  }

  /** The middle of sorted data `t`, as `statistics.median` takes it. */
  function Middle(t: seq<int>): real
    requires |t| > 0
  {
    var n := |t|;
    if n % 2 == 1 then t[n / 2] as real
    else ((t[n / 2 - 1] + t[n / 2]) as real) / 2.0
  }

  lemma CountTimes(s: seq<int>, x: int)
    requires |s| > 0
    ensures |s| * x == |s[1..]| * x + x
  {
  }

  lemma {:induction false} SumAtLeast(s: seq<int>, lower: int)
    requires forall x :: x in s ==> lower <= x
    ensures |s| * lower <= Sum(s)
  {
    if |s| > 0 {
      assert forall x :: x in s[1..] ==> x in s;
      SumAtLeast(s[1..], lower);
      assert s[0] in s;
      CountTimes(s, lower);
    }
  }

  lemma {:induction false} SumAtMost(s: seq<int>, upper: int)
    requires forall x :: x in s ==> x <= upper
    ensures Sum(s) <= |s| * upper
  {
    if |s| > 0 {
      assert forall x :: x in s[1..] ==> x in s;
      SumAtMost(s[1..], upper);
      assert s[0] in s;
      CountTimes(s, upper);
    }
  }

  /** The mean lies between the smallest and the largest element. */
  lemma MeanWithinRange(s: seq<int>)
    requires |s| > 0
    ensures Min(s) as real <= Mean(s) <= Max(s) as real
  {
    SumAtLeast(s, Min(s));
    SumAtMost(s, Max(s));
    QuotientBounds(Min(s), Max(s), Sum(s), |s|);
  }

  lemma QuotientBounds(lo: int, hi: int, total: int, k: int)
    requires k > 0 && k * lo <= total <= k * hi
    ensures lo as real <= (total as real) / (k as real) <= hi as real
  {
    var q := (total as real) / (k as real);
    assert q * (k as real) == total as real;
    assert (k * lo) as real == (lo as real) * (k as real);
    assert (k * hi) as real == (hi as real) * (k as real);
  }

  /** Every element of the sorted data lies between the extrema. */
  lemma SortedWithinRange(s: seq<int>)
    requires |s| > 0
    ensures forall i :: 0 <= i < |Sort(s)| ==> Min(s) <= Sort(s)[i] <= Max(s)
  {
    var t := Sort(s);
    forall i | 0 <= i < |t|
      ensures Min(s) <= t[i] <= Max(s)
    {
      assert t[i] in multiset(t);
      assert t[i] in s;
    }
  }

  /** The middle of data within bounds is within those bounds. */
  lemma MiddleWithin(t: seq<int>, lo: int, hi: int)
    requires |t| > 0
    requires forall i :: 0 <= i < |t| ==> lo <= t[i] <= hi
    ensures lo as real <= Middle(t) <= hi as real
  {
    var n := |t|;
    if n % 2 == 0 {
      assert lo <= t[n / 2 - 1] <= hi && lo <= t[n / 2] <= hi;
    } else {
      assert lo <= t[n / 2] <= hi;
    }
  }

  /** The median lies between the smallest and the largest element. */
  lemma MedianWithinRange(s: seq<int>)
    requires |s| > 0
    ensures Min(s) as real <= Median(s) <= Max(s) as real
  {
    SortedWithinRange(s);
    MiddleWithin(Sort(s), Min(s), Max(s));
  }
}
