/**
 The latency percentile of the load generator's summary: the value at a fixed
 rank of the sorted samples.
 */
module Percentile {
  import opened Decimal

  function Insert(x: u64, sorted: seq<u64>): seq<u64> {
    if sorted == [] || x <= sorted[0] then [x] + sorted else [sorted[0]] + Insert(x, sorted[1..])
  }

  /** What `std::sort` leaves in the vector. */
  function Sort(values: seq<u64>): seq<u64> {
    if values == [] then [] else Insert(values[0], Sort(values[1..]))
  }

  predicate IsSorted(s: seq<u64>) {
    forall i, j :: 0 <= i < j < |s| ==> s[i] <= s[j]
  }

  /** The position looked at among `n` sorted samples. */
  function Rank(n: nat, ratio: real): int
    requires n > 0
  {
    ((n - 1) as real * ratio).Floor
  }

  function CountLe(s: seq<u64>, v: u64): nat {
    if s == [] then 0 else (if s[0] <= v then 1 else 0) + CountLe(s[1..], v)
  }

  function CountGe(s: seq<u64>, v: u64): nat {
    if s == [] then 0 else (if s[0] >= v then 1 else 0) + CountGe(s[1..], v)
  }

  lemma RankInRange(n: nat, ratio: real)
    requires n > 0 && 0.0 <= ratio <= 1.0
    ensures 0 <= Rank(n, ratio) < n
  {
    assert 0.0 <= (n - 1) as real * ratio <= (n - 1) as real;
  }

  /** Zero without samples, otherwise the sorted sample at the rank. */
  function Of(values: seq<u64>, ratio: real): u64
    requires 0.0 <= ratio <= 1.0
  {
    if values == [] then 0
    else
      RankInRange(|values|, ratio);
      SortKeepsCounts(values, 0);
      Sort(values)[Rank(|values|, ratio)]
  }

  // ---- sorting ----

  lemma {:induction false} InsertCounts(x: u64, s: seq<u64>, v: u64)
    ensures |Insert(x, s)| == |s| + 1
    ensures CountLe(Insert(x, s), v) == (if x <= v then 1 else 0) + CountLe(s, v)
    ensures CountGe(Insert(x, s), v) == (if x >= v then 1 else 0) + CountGe(s, v)
  {
    if s == [] || x <= s[0] {
      assert ([x] + s)[1..] == s;
    } else {
      InsertCounts(x, s[1..], v);
      assert Insert(x, s)[1..] == Insert(x, s[1..]);
    }
  }

  lemma {:induction false} SortKeepsCounts(values: seq<u64>, v: u64)
    ensures |Sort(values)| == |values|
    ensures CountLe(Sort(values), v) == CountLe(values, v) && CountGe(Sort(values), v) == CountGe(values, v)
  {
    if values != [] {
      SortKeepsCounts(values[1..], v);
      InsertCounts(values[0], Sort(values[1..]), v);
    }
  }

  lemma {:induction false} InsertSorted(x: u64, s: seq<u64>)
    requires IsSorted(s)
    ensures IsSorted(Insert(x, s))
    ensures Insert(x, s)[0] == if s == [] || x <= s[0] then x else s[0]
  {
    if s != [] && x > s[0] {
      InsertSorted(x, s[1..]);
      var tail := Insert(x, s[1..]);
      forall j | 0 <= j < |tail| ensures s[0] <= tail[j] {
        assert tail[0] <= tail[j];
      }
    }
  }

  lemma {:induction false} SortSorts(values: seq<u64>)
    ensures IsSorted(Sort(values))
  {
    if values != [] {
      SortSorts(values[1..]);
      InsertSorted(values[0], Sort(values[1..]));
    }
  }

  // ---- ranks ----

  /** In a sorted sequence, everything up to `k` is at most, and everything from `k` on at least, the `k`-th value. */
  lemma {:induction false} CountsAtRank(s: seq<u64>, k: nat, v: u64)
    requires IsSorted(s) && k < |s|
    ensures s[k] <= v ==> CountLe(s, v) >= k + 1
    ensures s[k] > v ==> CountLe(s, v) <= k
    ensures s[k] >= v ==> CountGe(s, v) >= |s| - k
    ensures s[k] < v ==> CountGe(s, v) <= |s| - k - 1
  {
    if k > 0 {
      CountsAtRank(s[1..], k - 1, v);
    } else {
      CountsOfBounded(s, v);
    }
  }

  lemma {:induction false} CountsOfBounded(s: seq<u64>, v: u64)
    requires IsSorted(s) && s != []
    ensures s[0] <= v ==> CountLe(s, v) >= 1
    ensures s[0] > v ==> CountLe(s, v) == 0
    ensures s[0] >= v ==> CountGe(s, v) == |s|
    ensures s[0] < v ==> CountGe(s, v) <= |s| - 1
  {
    CountGeAtMost(s[1..], v);
    if |s| > 1 {
      CountsOfBounded(s[1..], v);
    }
  }

  lemma {:induction false} CountGeAtMost(s: seq<u64>, v: u64)
    ensures CountGe(s, v) <= |s|
  {
    if s != [] {
      CountGeAtMost(s[1..], v);
    }
  }

  lemma RankedValue(values: seq<u64>, ratio: real, v: u64)
    requires values != [] && 0.0 <= ratio <= 1.0
    ensures v == Of(values, ratio)
       <==> CountLe(values, v) >= Rank(|values|, ratio) + 1 && CountGe(values, v) >= |values| - Rank(|values|, ratio)
  {
    hide Sort, IsSorted, CountLe, CountGe, Rank;
    RankInRange(|values|, ratio);
    SortKeepsCounts(values, v);
    SortSorts(values);
    CountsAtRank(Sort(values), Rank(|values|, ratio), v);
  }

  /** The whole number of steps, of the `n - 1` from the least sample to the greatest, within the ratio. */
  predicate WholeSteps(k: nat, n: nat, ratio: real)
    requires n > 0
  {
    k as real <= (n - 1) as real * ratio < (k + 1) as real
  }

  /**
   With `k` the whole part of (n - 1) * ratio, the percentile is the one value with
   more than `k` samples at or below it and at least `n - k` at or above it.
   */
  lemma PercentileIsTheRankedValue(values: seq<u64>, ratio: real, v: u64)
    requires values != [] && 0.0 <= ratio <= 1.0
    ensures exists k: nat ::
      && WholeSteps(k, |values|, ratio)
      && (v == Of(values, ratio) <==> CountLe(values, v) >= k + 1 && CountGe(values, v) >= |values| - k)
  {
    var k := Rank(|values|, ratio);
    RankInRange(|values|, ratio);
    assert WholeSteps(k, |values|, ratio);
    hide *;
    RankedValue(values, ratio, v);
  }

  lemma NoSamples(ratio: real)
    requires 0.0 <= ratio <= 1.0
    ensures Of([], ratio) == 0
  {
  }

  lemma WholeStepsAreUnique(j: nat, k: nat, n: nat, ratio: real)
    requires n > 0 && WholeSteps(j, n, ratio) && WholeSteps(k, n, ratio)
    ensures j == k
  {
  }

  /** It is one of the samples. */
  lemma PercentileIsASample(values: seq<u64>, ratio: real)
    requires values != [] && 0.0 <= ratio <= 1.0
    ensures Of(values, ratio) in values
  {
    hide CountLe, CountGe, IsSorted;
    RankInRange(|values|, ratio);
    SortKeepsCounts(values, 0);
    SortKeepsMembers(values);
  }

  lemma {:induction false} SortKeepsMembers(values: seq<u64>)
    ensures forall i :: 0 <= i < |Sort(values)| ==> Sort(values)[i] in values
  {
    if values != [] {
      SortKeepsMembers(values[1..]);
      InsertMembers(values[0], Sort(values[1..]));
    }
  }

  lemma {:induction false} InsertMembers(x: u64, s: seq<u64>)
    ensures forall i :: 0 <= i < |Insert(x, s)| ==> Insert(x, s)[i] == x || Insert(x, s)[i] in s
  {
    if s != [] && x > s[0] {
      InsertMembers(x, s[1..]);
    }
  }

  lemma {:induction false} CountsIgnoreOrder(a: seq<u64>, b: seq<u64>, v: u64)
    requires multiset(a) == multiset(b)
    ensures |a| == |b| && CountLe(a, v) == CountLe(b, v) && CountGe(a, v) == CountGe(b, v)
  {
    assert |multiset(a)| == |a| && |multiset(b)| == |b|;
    if a != [] {
      var x, tail := a[0], a[1..];
      assert a == [x] + tail;
      assert x in multiset(b) && x in b;
      var i :| 0 <= i < |b| && b[i] == x;
      assert b == b[..i] + [x] + b[i + 1..];
      CountsAround(b[..i], x, b[i + 1..], v);
      WithoutOne(x, tail, b[..i], b[i + 1..]);
      CountsIgnoreOrder(tail, b[..i] + b[i + 1..], v);
    }
  }

  lemma WithoutOne(x: u64, tail: seq<u64>, left: seq<u64>, right: seq<u64>)
    requires multiset([x] + tail) == multiset(left + [x] + right)
    ensures multiset(tail) == multiset(left + right)
  {
    assert multiset(tail) == multiset([x] + tail) - multiset{x};
    assert multiset(left + [x] + right) == multiset(left) + multiset{x} + multiset(right);
    assert multiset(left + right) == multiset(left) + multiset(right);
    assert multiset(left + right) == multiset(left + [x] + right) - multiset{x};
  }

  lemma {:induction false} CountsAround(left: seq<u64>, x: u64, right: seq<u64>, v: u64)
    ensures CountLe(left + [x] + right, v) == (if x <= v then 1 else 0) + CountLe(left + right, v)
    ensures CountGe(left + [x] + right, v) == (if x >= v then 1 else 0) + CountGe(left + right, v)
  {
    var whole := left + [x] + right;
    if left == [] {
      assert whole[1..] == right && left + right == right;
    } else {
      CountsAround(left[1..], x, right, v);
      assert whole[1..] == left[1..] + [x] + right;
      assert (left + right)[1..] == left[1..] + right;
    }
  }

  /** The order in which samples were taken does not matter. */
  lemma PercentileIgnoresOrder(a: seq<u64>, b: seq<u64>, ratio: real)
    requires multiset(a) == multiset(b) && 0.0 <= ratio <= 1.0
    ensures Of(a, ratio) == Of(b, ratio)
  {
    CountsIgnoreOrder(a, b, 0);
    if a != [] {
      CountsIgnoreOrder(a, b, Of(a, ratio));
      RankedValue(a, ratio, Of(a, ratio));
      RankedValue(b, ratio, Of(a, ratio));
    }
  }

  /** A larger ratio never gives a smaller value, so p50 <= p95 <= p99. */
  lemma PercentileIsMonotone(values: seq<u64>, low: real, high: real)
    requires 0.0 <= low <= high <= 1.0
    ensures Of(values, low) <= Of(values, high)
  {
    hide Rank, Sort, IsSorted;
    if values != [] {
      RankIsMonotone(|values|, low, high);
      SortSorts(values);
      SortKeepsCounts(values, 0);
      InOrder(Sort(values), Rank(|values|, low), Rank(|values|, high));
    }
  }

  lemma InOrder(s: seq<u64>, i: nat, j: nat)
    requires IsSorted(s) && i <= j < |s|
    ensures s[i] <= s[j]
  {
  }

  lemma RankIsMonotone(n: nat, low: real, high: real)
    requires n > 0 && 0.0 <= low <= high <= 1.0
    ensures 0 <= Rank(n, low) <= Rank(n, high) < n
  {
    RankInRange(n, low);
    RankInRange(n, high);
    Scaled((n - 1) as real, low, high);
  }

  lemma Scaled(a: real, low: real, high: real)
    requires a >= 0.0 && low <= high
    ensures a * low <= a * high
  {
  }
}
