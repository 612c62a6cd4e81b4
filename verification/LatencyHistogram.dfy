/**
  The log-linear histogram: values below 128 have a bucket each, and every power of two above is
  split into 64 buckets. A percentile scan finds the bucket of the sample it is looking for, so
  it errs by at most one 64th, and never on the low side unless that sample is off the scale.
 */
module LatencyHistogram {
  import opened Words

  const SUB_BUCKETS := 128
  const HALF := 64
  const MAX_VALUE := 0xFF_FFFF_FFFF
  const BUCKETS := 2240

  /** The position of the highest bit that is set. */
  function Msb(v: nat): nat
    requires v >= 1
  {
    if v == 1 then 0 else 1 + Msb(v / 2)
  }

  lemma {:induction false} MsbBounds(v: nat)
    requires v >= 1
    ensures Pow2(Msb(v)) <= v < Pow2(Msb(v) + 1)
  {
    if v > 1 {
      MsbBounds(v / 2);
    }
  }

  lemma {:induction false} MsbIs(v: nat, m: nat)
    requires Pow2(m) <= v < Pow2(m + 1)
    ensures Msb(v) == m
  {
    if m > 0 {
      MsbIs(v / 2, m - 1);
    }
  }

  lemma {:induction false} Pow2Grows(a: nat, b: nat)
    requires a <= b
    ensures Pow2(a) <= Pow2(b)
  {
    if a < b {
      Pow2Grows(a, b - 1);
    }
  }

  lemma SmallPowers()
    ensures Pow2(6) == 64 && Pow2(7) == 128
  {
  }

  lemma ScaleIsPow2()
    ensures Pow2(40) == MAX_VALUE + 1
  {
    assert Pow2(8) == 256;
    Pow2Add(8, 8);
    Pow2Add(16, 16);
    Pow2Add(8, 32);
  }

  /** A product, named so that proofs can treat it as one unknown. */
  function Scale(t: int, p: int): int {
    t * p
  }

  lemma ScaleLaws(t: int, u: int, p: int)
    requires p >= 0
    ensures Scale(t + 1, p) == Scale(t, p) + p
    ensures t <= u ==> Scale(t, p) <= Scale(u, p)
    ensures Scale(64, p) == 64 * p && Scale(128, p) == 128 * p
    ensures Scale(p, 64) == 64 * p && Scale(p, 128) == 128 * p
  {
  }

  lemma QuotientBounds(v: int, p: int)
    requires p > 0
    ensures Scale(v / p, p) <= v < Scale(v / p + 1, p)
  {
  }

  lemma QuotientIs(v: int, p: int, t: int)
    requires p > 0 && Scale(t, p) <= v < Scale(t + 1, p)
    ensures v / p == t
  {
    var q := v / p;
    QuotientBounds(v, p);
    ScaleLaws(q + 1, t, p);
    ScaleLaws(t + 1, q, p);
    hide Scale;
    assert q >= t;
  }

  function Min(a: int, b: int): int { if b < a then b else a }

  /** The bucket of a value; values off the scale share the last one. */
  function BucketIndex(value: nat): int {
    var v := Min(value, MAX_VALUE);
    if v < SUB_BUCKETS then v
    else
      MsbIsLarge(v);
      var shift := Msb(v) - 6;
      var top := v / Pow2(shift);
      SUB_BUCKETS + (shift - 1) * HALF + (top - HALF)
  }

  lemma MsbIsLarge(v: nat)
    requires v >= SUB_BUCKETS
    ensures Msb(v) >= 7
  {
    MsbBounds(v);
    SmallPowers();
    if Msb(v) < 7 {
      Pow2Grows(Msb(v) + 1, 7);
    }
  }

  /** The largest value of a bucket. */
  function BucketUpperBound(index: nat): int {
    if index < SUB_BUCKETS then index
    else
      var offset := index - SUB_BUCKETS;
      var shift := offset / HALF + 1;
      var top := offset % HALF + HALF;
      Scale(top + 1, Pow2(shift)) - 1
  }

  /** The smallest value of a bucket. */
  function BucketLowerBound(index: nat): int {
    if index < SUB_BUCKETS then index
    else
      var offset := index - SUB_BUCKETS;
      Scale(offset % HALF + HALF, Pow2(offset / HALF + 1))
  }

  /** Shift and top of a bucket above the linear part, and its bounds. */
  lemma BucketParts(index: nat) returns (shift: nat, top: nat, p: nat)
    requires index >= SUB_BUCKETS
    ensures shift >= 1 && HALF <= top < SUB_BUCKETS && p == Pow2(shift)
    ensures index == SUB_BUCKETS + (shift - 1) * HALF + (top - HALF)
    ensures BucketLowerBound(index) == Scale(top, p) && BucketUpperBound(index) == Scale(top + 1, p) - 1
    ensures index < BUCKETS ==> shift <= 33
  {
    var offset := index - SUB_BUCKETS;
    shift, top := offset / HALF + 1, offset % HALF + HALF;
    p := Pow2(shift);
  }

  lemma NextParts(index: nat, shift: nat, top: nat)
    requires shift >= 1 && HALF <= top < SUB_BUCKETS && index == SUB_BUCKETS + (shift - 1) * HALF + (top - HALF)
    ensures BucketLowerBound(index) == Scale(top, Pow2(shift))
    ensures BucketUpperBound(index) == Scale(top + 1, Pow2(shift)) - 1
  {
    hide Pow2, Scale;
    assert (index - SUB_BUCKETS) / HALF == shift - 1 && (index - SUB_BUCKETS) % HALF == top - HALF;
  }

  /** The buckets follow one another without gap or overlap. */
  lemma BucketsAreContiguous(i: nat)
    ensures BucketLowerBound(i) <= BucketUpperBound(i)
    ensures BucketLowerBound(i + 1) == BucketUpperBound(i) + 1
  {
    if i >= SUB_BUCKETS {
      var shift, top, p := BucketParts(i);
      var p' := Pow2(shift + 1);
      assert p' == 2 * p;
      ScaleLaws(top, top, p);
      ScaleLaws(top, top, p');
      hide Scale, Pow2, BucketLowerBound, BucketUpperBound;
      if top + 1 < SUB_BUCKETS {
        NextParts(i + 1, shift, top + 1);
      } else {
        NextParts(i + 1, shift + 1, HALF);
      }
    } else {
      hide Scale;
      SmallPowers();
      ScaleLaws(64, 64, 2);
      assert Pow2(1) == 2;
    }
  }

  lemma {:induction false} UpperBoundsIncrease(i: nat, j: nat)
    requires i < j
    ensures BucketUpperBound(i) < BucketLowerBound(j) <= BucketUpperBound(j)
    decreases j - i
  {
    hide BucketUpperBound, BucketLowerBound;
    BucketsAreContiguous(j - 1);
    BucketsAreContiguous(j);
    if i < j - 1 {
      UpperBoundsIncrease(i, j - 1);
    }
  }

  lemma TimesPow2(top: nat, shift: nat)
    requires HALF <= top < SUB_BUCKETS
    ensures Pow2(shift + 6) <= Scale(top, Pow2(shift))
    ensures Scale(top + 1, Pow2(shift)) <= Pow2(shift + 7)
  {
    SmallPowers();
    PowersAbove(shift);
    ScaleLaws(64, top, Pow2(shift));
    ScaleLaws(top + 1, 128, Pow2(shift));
  }

  lemma PowersAbove(shift: nat)
    ensures Pow2(shift + 6) == 64 * Pow2(shift) && Pow2(shift + 7) == 128 * Pow2(shift)
  {
    assert Pow2(shift + 6) == 2 * Pow2(shift + 5) == 4 * Pow2(shift + 4) == 8 * Pow2(shift + 3);
    assert Pow2(shift + 3) == 2 * Pow2(shift + 2) == 4 * Pow2(shift + 1) == 8 * Pow2(shift);
  }

  lemma LastBound()
    ensures BucketUpperBound(BUCKETS - 1) == MAX_VALUE
  {
    hide Scale, Pow2;
    ScaleIsPow2();
    PowersAbove(33);
    ScaleLaws(128, 128, Pow2(33));
    NextParts(BUCKETS - 1, 33, 127);
  }

  /** Any value between the bounds of a bucket is put in that bucket. */
  lemma BucketOfValue(v: nat, i: nat)
    requires i < BUCKETS && BucketLowerBound(i) <= v <= BucketUpperBound(i)
    ensures BucketIndex(v) == i
  {
    LastBound();
    if i < BUCKETS - 1 {
      UpperBoundsIncrease(i, BUCKETS - 1);
    }
    assert v <= MAX_VALUE;
    if i >= SUB_BUCKETS {
      var shift, top, p := BucketParts(i);
      TimesPow2(top, shift);
      MsbIs(v, shift + 6);
      QuotientIs(v, p, top);
      AtLeastSubBuckets(i, v);
    }
  }

  lemma AtLeastSubBuckets(i: nat, v: nat)
    requires i >= SUB_BUCKETS && BucketLowerBound(i) <= v
    ensures v >= SUB_BUCKETS
  {
    hide Pow2;
    assert BucketUpperBound(SUB_BUCKETS - 1) == SUB_BUCKETS - 1;
    UpperBoundsIncrease(SUB_BUCKETS - 1, i);
  }

  /** Every value on the scale lies between the bounds of its bucket. */
  lemma ValueInBucket(v: nat)
    requires v <= MAX_VALUE
    ensures 0 <= BucketIndex(v) < BUCKETS
    ensures BucketLowerBound(BucketIndex(v)) <= v <= BucketUpperBound(BucketIndex(v))
  {
    if v >= SUB_BUCKETS {
      MsbIsLarge(v);
      MsbBounds(v);
      var shift := Msb(v) - 6;
      var p := Pow2(shift);
      var top := v / p;
      QuotientBounds(v, p);
      TopInRange(v, shift);
      ShiftInRange(v);
      var i := BucketIndex(v);
      assert i == SUB_BUCKETS + (shift - 1) * HALF + (top - HALF);
      var s, t, q := BucketParts(i);
      assert s == shift && t == top;
    }
  }

  lemma TopInRange(v: nat, shift: nat)
    requires Pow2(shift + 6) <= v < Pow2(shift + 7)
    ensures HALF <= v / Pow2(shift) < SUB_BUCKETS
  {
    PowersAbove(shift);
    var p := Pow2(shift);
    var q := v / p;
    QuotientBounds(v, p);
    ScaleLaws(q + 1, 64, p);
    ScaleLaws(128, q, p);
    hide Scale, Pow2;
  }

  lemma ShiftInRange(v: nat)
    requires SUB_BUCKETS <= v <= MAX_VALUE
    ensures Msb(v) <= 39
  {
    MsbBounds(v);
    ScaleIsPow2();
    if Msb(v) > 39 {
      Pow2Grows(40, Msb(v));
    }
  }

  /** The bucket of a value, without the clamp: the smallest bucket whose upper bound reaches it. */
  lemma IndexBounds(v: nat)
    ensures 0 <= BucketIndex(v) < BUCKETS
    ensures v <= MAX_VALUE ==> BucketLowerBound(BucketIndex(v)) <= v <= BucketUpperBound(BucketIndex(v))
    ensures v > MAX_VALUE ==> BucketIndex(v) == BUCKETS - 1
  {
    hide BucketIndex, BucketUpperBound, BucketLowerBound;
    if v <= MAX_VALUE {
      ValueInBucket(v);
    } else {
      OffTheScale(v);
    }
  }

  lemma OffTheScale(v: nat)
    requires v >= MAX_VALUE
    ensures BucketIndex(v) == BUCKETS - 1
  {
    LastBound();
    BucketsAreContiguous(BUCKETS - 1);
    BucketOfValue(MAX_VALUE, BUCKETS - 1);
  }

  /** Larger values go into the same or a later bucket. */
  lemma IndexIsMonotone(v: nat, w: nat)
    requires v <= w
    ensures BucketIndex(v) <= BucketIndex(w)
  {
    hide BucketIndex, BucketUpperBound, BucketLowerBound;
    IndexBounds(v);
    IndexBounds(w);
    if BucketIndex(v) > BucketIndex(w) {
      UpperBoundsIncrease(BucketIndex(w), BucketIndex(v));
    }
  }

  /** Every bucket is the bucket of its own upper bound: no bucket is empty, none is out of range. */
  lemma BoundsInvertIndex(i: nat)
    requires i < BUCKETS
    ensures 0 <= BucketUpperBound(i) <= MAX_VALUE
    ensures BucketIndex(BucketUpperBound(i)) == i
  {
    hide BucketIndex, Pow2;
    LastBound();
    BucketsAreContiguous(i);
    if i < BUCKETS - 1 {
      UpperBoundsIncrease(i, BUCKETS - 1);
    }
    if i > 0 {
      UpperBoundsIncrease(0, i);
    }
    hide BucketUpperBound, BucketLowerBound;
    BucketOfValue(BucketUpperBound(i), i);
  }

  /** A bucket is narrow: its upper bound is at most a 64th above any value in it. */
  lemma BucketIsNarrow(v: nat)
    requires v <= MAX_VALUE
    ensures 0 <= BucketIndex(v) && 0 <= BucketUpperBound(BucketIndex(v)) - v
    ensures HALF * (BucketUpperBound(BucketIndex(v)) - v) <= v
  {
    hide BucketIndex;
    ValueInBucket(v);
    var i := BucketIndex(v);
    if i >= SUB_BUCKETS {
      var shift, top, p := BucketParts(i);
      ScaleLaws(64, top, p);
      ScaleLaws(top, top, p);
      hide Scale, Pow2, BucketUpperBound, BucketLowerBound;
    }
  }

  // ---------- samples ----------

  /** How many samples are in the buckets before i. */
  ghost function CountBefore(samples: seq<nat>, i: int): nat {
    if |samples| == 0 then 0
    else CountBefore(samples[..|samples| - 1], i) + if BucketIndex(samples[|samples| - 1]) < i then 1 else 0
  }

  /** How many samples are in bucket i. */
  ghost function CountIn(samples: seq<nat>, i: int): nat {
    if |samples| == 0 then 0
    else CountIn(samples[..|samples| - 1], i) + if BucketIndex(samples[|samples| - 1]) == i then 1 else 0
  }

  ghost function Largest(samples: seq<nat>): nat {
    if |samples| == 0 then 0
    else if samples[|samples| - 1] > Largest(samples[..|samples| - 1]) then samples[|samples| - 1]
    else Largest(samples[..|samples| - 1])
  }

  ghost function Smallest(samples: seq<nat>): int {
    if |samples| == 0 then WORD - 1
    else if samples[|samples| - 1] < Smallest(samples[..|samples| - 1]) then samples[|samples| - 1]
    else Smallest(samples[..|samples| - 1])
  }

  ghost function Total(samples: seq<nat>): nat {
    if |samples| == 0 then 0 else Total(samples[..|samples| - 1]) + samples[|samples| - 1]
  }

  lemma {:induction false} CountStep(samples: seq<nat>, i: int)
    ensures CountBefore(samples, i + 1) == CountBefore(samples, i) + CountIn(samples, i)
  {
    hide BucketIndex;
    if |samples| > 0 {
      CountStep(samples[..|samples| - 1], i);
    }
  }

  lemma {:induction false} CountEnds(samples: seq<nat>)
    ensures CountBefore(samples, 0) == 0 && CountBefore(samples, BUCKETS) == |samples|
  {
    hide BucketIndex;
    if |samples| > 0 {
      CountEnds(samples[..|samples| - 1]);
      IndexBounds(samples[|samples| - 1]);
    }
  }

  // ---------- the exact answer ----------

  ghost predicate Nondecreasing(s: seq<nat>) {
    forall i, j :: 0 <= i < j < |s| ==> s[i] <= s[j]
  }

  /** `x`, put where it belongs in a sorted sequence. */
  ghost function Insert(s: seq<nat>, x: nat): seq<nat> {
    if |s| == 0 || s[|s| - 1] <= x then s + [x] else Insert(s[..|s| - 1], x) + [s[|s| - 1]]
  }

  ghost function Sorted(samples: seq<nat>): seq<nat> {
    if |samples| == 0 then [] else Insert(Sorted(samples[..|samples| - 1]), samples[|samples| - 1])
  }

  lemma {:induction false} InsertAdds(s: seq<nat>, x: nat)
    ensures multiset(Insert(s, x)) == multiset(s) + multiset{x} && |Insert(s, x)| == |s| + 1
  {
    if |s| > 0 && s[|s| - 1] > x {
      InsertAdds(s[..|s| - 1], x);
      assert s == s[..|s| - 1] + [s[|s| - 1]];
    }
  }

  lemma InsertedIsThere(s: seq<nat>, x: nat, i: nat)
    requires i < |Insert(s, x)|
    ensures Insert(s, x)[i] in s || Insert(s, x)[i] == x
  {
    InsertAdds(s, x);
    assert Insert(s, x)[i] in multiset(Insert(s, x));
  }

  lemma {:induction false} InsertSorts(s: seq<nat>, x: nat)
    requires Nondecreasing(s)
    ensures Nondecreasing(Insert(s, x))
  {
    if |s| > 0 && s[|s| - 1] > x {
      var n := |s| - 1;
      InsertSorts(s[..n], x);
      var r := Insert(s[..n], x);
      forall i | 0 <= i < |r| ensures r[i] <= s[n] {
        InsertedIsThere(s[..n], x, i);
      }
    }
  }

  /** `Sorted` is the samples in increasing order. */
  lemma {:induction false} SortedSorts(samples: seq<nat>)
    ensures Nondecreasing(Sorted(samples)) && multiset(Sorted(samples)) == multiset(samples)
    ensures |Sorted(samples)| == |samples|
  {
    if |samples| > 0 {
      var n := |samples| - 1;
      SortedSorts(samples[..n]);
      InsertSorts(Sorted(samples[..n]), samples[n]);
      InsertAdds(Sorted(samples[..n]), samples[n]);
      assert samples == samples[..n] + [samples[n]];
    }
  }

  lemma {:induction false} InsertCounts(s: seq<nat>, x: nat, i: int)
    ensures CountBefore(Insert(s, x), i) == CountBefore(s, i) + if BucketIndex(x) < i then 1 else 0
  {
    hide BucketIndex;
    if |s| == 0 || s[|s| - 1] <= x {
      assert (s + [x])[..|s|] == s;
    } else {
      var n := |s| - 1;
      InsertCounts(s[..n], x, i);
      var r := Insert(s[..n], x);
      assert (r + [s[n]])[..|r|] == r;
    }
  }

  lemma {:induction false} SortedCounts(samples: seq<nat>, i: int)
    ensures CountBefore(Sorted(samples), i) == CountBefore(samples, i)
  {
    hide BucketIndex;
    if |samples| > 0 {
      SortedCounts(samples[..|samples| - 1], i);
      InsertCounts(Sorted(samples[..|samples| - 1]), samples[|samples| - 1], i);
    }
  }

  /** In a sorted sequence, r samples lie before bucket i exactly if the r-th does. */
  lemma {:induction false} RankBefore(s: seq<nat>, r: nat, i: int)
    requires Nondecreasing(s) && 1 <= r <= |s|
    ensures CountBefore(s, i) >= r <==> BucketIndex(s[r - 1]) < i
    decreases |s|
  {
    hide BucketIndex;
    var n := |s| - 1;
    CountAtMost(s[..n], i);
    if r == |s| {
      if BucketIndex(s[n]) < i {
        AllBefore(s, i);
      }
    } else {
      RankBefore(s[..n], r, i);
      if BucketIndex(s[r - 1]) >= i {
        IndexIsMonotone(s[r - 1], s[n]);
      }
    }
  }

  lemma {:induction false} CountAtMost(s: seq<nat>, i: int)
    ensures CountBefore(s, i) <= |s|
  {
    hide BucketIndex;
    if |s| > 0 {
      CountAtMost(s[..|s| - 1], i);
    }
  }

  lemma {:induction false} AllBefore(s: seq<nat>, i: int)
    requires Nondecreasing(s) && (|s| > 0 ==> BucketIndex(s[|s| - 1]) < i)
    ensures CountBefore(s, i) == |s|
  {
    hide BucketIndex;
    if |s| > 1 {
      IndexIsMonotone(s[|s| - 2], s[|s| - 1]);
    }
    if |s| > 0 {
      AllBefore(s[..|s| - 1], i);
    }
  }

  /** The rank-th smallest sample. */
  ghost function Exact(samples: seq<nat>, rank: nat): nat
    requires 1 <= rank <= |samples|
  {
    SortedSorts(samples);
    Sorted(samples)[rank - 1]
  }

  /** What a scan for this rank reports: the upper bound of the bucket of the exact answer, capped. */
  ghost function Estimate(samples: seq<nat>, rank: nat): int
    requires 1 <= rank <= |samples|
  {
    IndexBounds(Exact(samples, rank));
    Min(BucketUpperBound(BucketIndex(Exact(samples, rank))), Largest(samples))
  }

  /** The scan stops in the bucket of the exact answer. */
  lemma ScanFindsBucket(samples: seq<nat>, rank: nat, i: nat)
    requires 1 <= rank <= |samples| && CountBefore(samples, i) < rank <= CountBefore(samples, i + 1)
    ensures BucketIndex(Exact(samples, rank)) == i
  {
    hide BucketIndex;
    SortedSorts(samples);
    SortedCounts(samples, i);
    SortedCounts(samples, i + 1);
    RankBefore(Sorted(samples), rank, i);
    RankBefore(Sorted(samples), rank, i + 1);
  }

  lemma {:induction false} LargestIsLargest(samples: seq<nat>, x: nat)
    requires x in samples
    ensures x <= Largest(samples)
  {
    var n := |samples| - 1;
    if x != samples[n] {
      assert x in samples[..n];
      LargestIsLargest(samples[..n], x);
    }
  }

  lemma ExactIsSample(samples: seq<nat>, rank: nat)
    requires 1 <= rank <= |samples|
    ensures Exact(samples, rank) in samples && Exact(samples, rank) <= Largest(samples)
  {
    hide Sorted, Largest;
    SortedSorts(samples);
    assert Exact(samples, rank) in multiset(Sorted(samples));
    LargestIsLargest(samples, Exact(samples, rank));
  }

  /**
    The error of a percentile: never more than a 64th too high, whatever the samples; and never
    too low, exactly as long as the exact answer is on the scale.
   */
  lemma EstimateIsClose(samples: seq<nat>, rank: nat)
    requires 1 <= rank <= |samples|
    ensures HALF * (Estimate(samples, rank) - Exact(samples, rank)) <= Exact(samples, rank)
    ensures Estimate(samples, rank) >= Exact(samples, rank) <==> Exact(samples, rank) <= MAX_VALUE
  {
    hide BucketIndex, BucketUpperBound;
    var x := Exact(samples, rank);
    ExactIsSample(samples, rank);
    if x <= MAX_VALUE {
      BucketIsNarrow(x);
    } else {
      OffTheScale(x);
      LastBound();
    }
  }

  /** A percentile is no lower than any percentile of lower rank. */
  lemma EstimateIsMonotone(samples: seq<nat>, r: nat, s: nat)
    requires 1 <= r <= s <= |samples|
    ensures Estimate(samples, r) <= Estimate(samples, s)
  {
    hide BucketIndex, BucketUpperBound;
    SortedSorts(samples);
    var x, y := Exact(samples, r), Exact(samples, s);
    IndexIsMonotone(x, y);
    IndexBounds(x);
    IndexBounds(y);
    if BucketIndex(x) < BucketIndex(y) {
      UpperBoundsIncrease(BucketIndex(x), BucketIndex(y));
    }
  }

  // ---------- the histogram ----------

  function Clamped(q: real): real {
    if q < 0.0 then 0.0 else if q > 1.0 then 1.0 else q
  }

  function Ceiling(x: real): int {
    -((-x).Floor)
  }

  /** Which sample a quantile asks for. */
  function Rank(q: real, count: nat): int {
    var r := Ceiling(Clamped(q) * count as real);
    if r < 1 then 1 else r
  }

  lemma RankInRange(q: real, count: nat)
    requires count >= 1
    ensures 1 <= Rank(q, count) <= count
  {
    var c, n := Clamped(q), count as real;
    ScaleDown(c, n);
    assert (-(c * n)).Floor >= 0 - count;
  }

  lemma ScaleDown(c: real, n: real)
    requires 0.0 <= c <= 1.0 && n >= 0.0
    ensures 0.0 <= c * n <= n
  {
  }

  lemma ScaleMonotone(c: real, d: real, n: real)
    requires c <= d && n >= 0.0
    ensures c * n <= d * n
  {
  }

  lemma CeilingIsMonotone(x: real, y: real)
    requires x <= y
    ensures Ceiling(x) <= Ceiling(y)
  {
    assert -y <= -x;
    assert (-y).Floor as real <= -y < (-y).Floor as real + 1.0 && (-x).Floor as real <= -x < (-x).Floor as real + 1.0;
  }

  lemma RankIsMonotone(q: real, r: real, count: nat)
    requires q <= r
    ensures Rank(q, count) <= Rank(r, count)
  {
    ScaleMonotone(Clamped(q), Clamped(r), count as real);
    CeilingIsMonotone(Clamped(q) * count as real, Clamped(r) * count as real);
  }

  datatype LatencySummary = LatencySummary(
    count: nat, meanMs: real, minMs: real, p50Ms: real, p90Ms: real, p95Ms: real, p99Ms: real,
      p999Ms: real, maxMs: real)

  const US_PER_MS := 1000.0

  function ToMs(us: int): real {
    us as real / US_PER_MS
  }

  function MeanMs(sumUs: nat, count: nat): real
    requires count > 0
  {
    sumUs as real / count as real / US_PER_MS
  }

  /** The percentile of the recorded samples at quantile q, in milliseconds; 0 if there are none. */
  ghost function PercentileOf(samples: seq<nat>, q: real): real {
    if |samples| == 0 then 0.0
    else
      RankInRange(q, |samples|);
      ToMs(Estimate(samples, Rank(q, |samples|)))
  }

  // ---------- percentiles, by counting ----------

  /** How many samples are at most x. */
  ghost function Covered(samples: seq<nat>, x: real): nat {
    if |samples| == 0 then 0
    else Covered(samples[..|samples| - 1], x) + if samples[|samples| - 1] as real <= x then 1 else 0
  }

  lemma {:induction false} InsertCovered(s: seq<nat>, y: nat, x: real)
    ensures Covered(Insert(s, y), x) == Covered(s, x) + if y as real <= x then 1 else 0
  {
    if |s| == 0 || s[|s| - 1] <= y {
      assert (s + [y])[..|s|] == s;
    } else {
      var n := |s| - 1;
      InsertCovered(s[..n], y, x);
      var r := Insert(s[..n], y);
      assert (r + [s[n]])[..|r|] == r;
    }
  }

  lemma {:induction false} SortedCovered(samples: seq<nat>, x: real)
    ensures Covered(Sorted(samples), x) == Covered(samples, x)
  {
    if |samples| > 0 {
      SortedCovered(samples[..|samples| - 1], x);
      InsertCovered(Sorted(samples[..|samples| - 1]), samples[|samples| - 1], x);
    }
  }

  lemma {:induction false} CoveredInOrder(s: seq<nat>, x: real)
    requires Nondecreasing(s)
    ensures Covered(s, x) <= |s| && (|s| > 0 && s[|s| - 1] as real <= x ==> Covered(s, x) == |s|)
  {
    if |s| > 0 {
      CoveredInOrder(s[..|s| - 1], x);
    }
  }

  /** In a sorted sequence, r samples are at most x exactly if the r-th is. */
  lemma {:induction false} RankCovered(s: seq<nat>, r: nat, x: real)
    requires Nondecreasing(s) && 1 <= r <= |s|
    ensures Covered(s, x) >= r <==> s[r - 1] as real <= x
    decreases |s|
  {
    var n := |s| - 1;
    CoveredInOrder(s[..n], x);
    if r == |s| {
      CoveredInOrder(s, x);
    } else {
      RankCovered(s[..n], r, x);
    }
  }

  /** ms is as good an answer as the buckets allow: enough samples are covered, and hardly less would not do. */
  ghost predicate IsPercentile(samples: seq<nat>, q: real, ms: real) {
    && ((forall y :: y in samples ==> y <= MAX_VALUE) ==>
          Covered(samples, US_PER_MS * ms) as real >= q * |samples| as real)
    && forall y :: y in samples && Covered(samples, y as real) as real >= q * |samples| as real ==>
         US_PER_MS * ms <= y as real + y as real / 64.0
  }

  lemma RankIsLeast(q: real, n: nat, k: nat)
    requires 0.0 <= q <= 1.0 && n >= 1
    ensures Rank(q, n) as real >= q * n as real
    ensures k >= 1 && k as real >= q * n as real ==> k >= Rank(q, n)
  {
    var x := q * n as real;
    assert (-x).Floor as real <= -x < (-x).Floor as real + 1.0;
  }

  lemma {:induction false} CoversItself(samples: seq<nat>, y: nat)
    requires y in samples
    ensures Covered(samples, y as real) >= 1
  {
    var n := |samples| - 1;
    if y != samples[n] {
      assert y in samples[..n];
      CoversItself(samples[..n], y);
    }
  }

  /** The estimate covers as many samples as its rank, if none is off the scale. */
  lemma EstimateCovers(samples: seq<nat>, r: nat)
    requires 1 <= r <= |samples| && Exact(samples, r) <= MAX_VALUE
    ensures Covered(samples, Estimate(samples, r) as real) >= r
  {
    hide Estimate, Covered, Sorted, BucketIndex, BucketUpperBound, Largest;
    var e := Estimate(samples, r);
    EstimateIsClose(samples, r);
    SortedSorts(samples);
    SortedCovered(samples, e as real);
    RankCovered(Sorted(samples), r, e as real);
  }

  /** A sample that covers as many is hardly below it. */
  lemma EstimateIsTight(samples: seq<nat>, r: nat, y: nat)
    requires 1 <= r <= |samples| && Covered(samples, y as real) >= r
    ensures Estimate(samples, r) as real <= y as real + y as real / 64.0
  {
    hide Estimate, Covered, Sorted, BucketIndex, BucketUpperBound, Largest;
    EstimateIsClose(samples, r);
    SortedSorts(samples);
    SortedCovered(samples, y as real);
    RankCovered(Sorted(samples), r, y as real);
  }

  lemma PercentileCovers(samples: seq<nat>, q: real, asked: real)
    requires |samples| > 0 && Rank(q, |samples|) as real >= asked
    requires forall y :: y in samples ==> y <= MAX_VALUE
    ensures Covered(samples, US_PER_MS * PercentileOf(samples, q)) as real >= asked
  {
    hide Rank, Estimate, Exact, Covered, ToMs;
    RankInRange(q, |samples|);
    var r := Rank(q, |samples|);
    MsIsExact(Estimate(samples, r));
    ExactIsSample(samples, r);
    EstimateCovers(samples, r);
  }

  lemma PercentileIsTight(samples: seq<nat>, q: real, y: nat)
    requires |samples| > 0 && Covered(samples, y as real) >= Rank(q, |samples|)
    ensures US_PER_MS * PercentileOf(samples, q) <= y as real + y as real / 64.0
  {
    hide Rank, Estimate, Exact, Covered, ToMs;
    RankInRange(q, |samples|);
    var r := Rank(q, |samples|);
    MsIsExact(Estimate(samples, r));
    EstimateIsTight(samples, r, y);
  }

  lemma PercentileIsPercentile(samples: seq<nat>, q: real)
    requires |samples| > 0 && 0.0 <= q <= 1.0
    ensures IsPercentile(samples, q, PercentileOf(samples, q))
  {
    hide Rank, PercentileOf, Covered;
    var asked := q * |samples| as real;
    RankIsLeast(q, |samples|, 1);
    if forall y :: y in samples ==> y <= MAX_VALUE {
      PercentileCovers(samples, q, asked);
    }
    forall y | y in samples && Covered(samples, y as real) as real >= asked
      ensures US_PER_MS * PercentileOf(samples, q) <= y as real + y as real / 64.0
    {
      CoversItself(samples, y);
      RankIsLeast(q, |samples|, Covered(samples, y as real));
      PercentileIsTight(samples, q, y);
    }
  }

  /** A quantile outside [0, 1] is taken as the nearer end. */
  lemma PercentileClamps(samples: seq<nat>, q: real)
    ensures q <= 0.0 ==> PercentileOf(samples, q) == PercentileOf(samples, 0.0)
    ensures q >= 1.0 ==> PercentileOf(samples, q) == PercentileOf(samples, 1.0)
  {
  }

  lemma {:induction false} SmallestIsSmallest(samples: seq<nat>)
    ensures forall y :: y in samples ==> Smallest(samples) <= y
    ensures Smallest(samples) in samples || Smallest(samples) == WORD - 1
  {
    if |samples| > 0 {
      var n := |samples| - 1;
      SmallestIsSmallest(samples[..n]);
      assert samples == samples[..n] + [samples[n]];
    }
  }

  lemma {:induction false} LargestIsThere(samples: seq<nat>)
    requires |samples| > 0
    ensures Largest(samples) in samples && forall y :: y in samples ==> y <= Largest(samples)
  {
    var n := |samples| - 1;
    assert samples == samples[..n] + [samples[n]];
    if n > 0 {
      LargestIsThere(samples[..n]);
    }
  }

  class LatencyHistogram {
    const buckets: array<int>
    var count: nat
    var sumUs: nat
    var minUs: int
    var maxUs: int
    ghost var samples: seq<nat>

    /** The counters are those of the samples recorded since the last reset; the sum wraps around. */
    ghost predicate Valid()
      reads this, buckets
    {
      && buckets.Length == BUCKETS
      && (forall i :: 0 <= i < BUCKETS ==> buckets[i] == CountIn(samples, i))
      && count == |samples| && sumUs == Wrap(Total(samples))
      && minUs == Smallest(samples) && maxUs == Largest(samples)
    }

    constructor ()
      ensures Valid() && samples == [] && fresh(buckets)
    {
      buckets := new int[BUCKETS](_ => 0);
      count, sumUs, minUs, maxUs, samples := 0, 0, WORD - 1, 0, [];
    }

    /** Record a latency in nanoseconds, truncated to microseconds; a negative one counts as 0. */
    method Record(nanos: int)
      requires Valid()
      modifies this, buckets
      ensures Valid() && samples == old(samples) + [if nanos < 0 then 0 else nanos / 1000]
    {
      RecordUs(if nanos < 0 then 0 else nanos / 1000);
    }

    method RecordUs(microseconds: nat)
      requires Valid()
      modifies this, buckets
      ensures Valid() && samples == old(samples) + [microseconds]
    {
      hide BucketIndex;
      IndexBounds(microseconds);
      ghost var after := samples + [microseconds];
      assert after[..|samples|] == samples;
      var i := BucketIndex(microseconds);
      buckets[i] := buckets[i] + 1;
      count := count + 1;
      sumUs := Wrap(sumUs + microseconds);
      WrapTwice(Total(samples), microseconds);
      if microseconds < minUs {
        minUs := microseconds;
      }
      if microseconds > maxUs {
        maxUs := microseconds;
      }
      samples := after;
    }

    method Reset()
      requires buckets.Length == BUCKETS
      modifies this, buckets
      ensures Valid() && samples == []
    {
      var i := 0;
      while i < BUCKETS
        invariant 0 <= i <= BUCKETS && forall j :: 0 <= j < i ==> buckets[j] == 0
      {
        buckets[i] := 0;
        i := i + 1;
      }
      count, sumUs, minUs, maxUs, samples := 0, 0, WORD - 1, 0, [];
    }

    /** Add up the buckets until the rank is reached. */
    method PercentileMs(q: real) returns (ms: real)
      requires Valid()
      ensures ms == PercentileOf(samples, q)
      ensures samples != [] && 0.0 <= q <= 1.0 ==> IsPercentile(samples, q, ms)
    {
      hide BucketIndex, BucketUpperBound, Rank, ToMs, IsPercentile;
      if count == 0 {
        return 0.0;
      }
      if 0.0 <= q <= 1.0 {
        PercentileIsPercentile(samples, q);
      }
      var rank := Rank(q, count);
      RankInRange(q, count);
      CountEnds(samples);
      var maxSeen := maxUs;
      ms := ToMs(maxSeen);
      var cumulative, i := 0, 0;
      while i < BUCKETS
        invariant 0 <= i <= BUCKETS && cumulative == CountBefore(samples, i) < rank
      {
        CountStep(samples, i);
        cumulative := cumulative + buckets[i];
        if cumulative >= rank {
          ScanFindsBucket(samples, rank, i);
          return ToMs(Min(BucketUpperBound(i), maxSeen));
        }
        i := i + 1;
      }
    }

    /**
      All at once: smallest, largest and mean sample in milliseconds, the mean as long as the sum has
      not wrapped around, and the percentiles.
     */
    method Summarize() returns (s: LatencySummary)
      requires Valid()
      ensures samples == [] ==> s == LatencySummary(0, 0.0, 0.0, 0.0, 0.0, 0.0, 0.0, 0.0, 0.0)
      ensures samples != [] ==>
        && s.count == |samples|
        && (exists y :: y in samples && US_PER_MS * s.maxMs == y as real)
        && (forall y :: y in samples ==> US_PER_MS * s.minMs <= y as real <= US_PER_MS * s.maxMs)
        && ((exists y :: y in samples && US_PER_MS * s.minMs == y as real) || US_PER_MS * s.minMs == (WORD - 1) as real)
        && (Total(samples) < WORD ==> s.meanMs * US_PER_MS * |samples| as real == Total(samples) as real)
      ensures samples != [] ==>
        && s.p50Ms == PercentileOf(samples, 0.5) && s.p90Ms == PercentileOf(samples, 0.9)
        && s.p95Ms == PercentileOf(samples, 0.95) && s.p99Ms == PercentileOf(samples, 0.99)
        && s.p999Ms == PercentileOf(samples, 0.999)
      ensures samples != [] ==>
        && IsPercentile(samples, 0.5, s.p50Ms) && IsPercentile(samples, 0.9, s.p90Ms)
        && IsPercentile(samples, 0.95, s.p95Ms) && IsPercentile(samples, 0.99, s.p99Ms)
        && IsPercentile(samples, 0.999, s.p999Ms)
    {
      hide PercentileOf, IsPercentile, Rank, MeanMs, ToMs, Total, Smallest, Largest, CountIn;
      if count == 0 {
        return LatencySummary(0, 0.0, 0.0, 0.0, 0.0, 0.0, 0.0, 0.0, 0.0);
      }
      var p50 := PercentileMs(0.5);
      var p90 := PercentileMs(0.9);
      var p95 := PercentileMs(0.95);
      var p99 := PercentileMs(0.99);
      var p999 := PercentileMs(0.999);
      SmallestIsSmallest(samples);
      LargestIsThere(samples);
      MsIsExact(minUs);
      MsIsExact(maxUs);
      MeanIsExact(sumUs, count);
      s := LatencySummary(count, MeanMs(sumUs, count), ToMs(minUs), p50, p90, p95, p99, p999, ToMs(maxUs));
    }
  }

  lemma MsIsExact(us: int)
    ensures US_PER_MS * ToMs(us) == us as real
  {
  }

  lemma MeanIsExact(sumUs: nat, count: nat)
    requires count > 0
    ensures MeanMs(sumUs, count) * US_PER_MS * count as real == sumUs as real
  {
    var m, n := sumUs as real / count as real, count as real;
    assert m * n == sumUs as real;
    assert MeanMs(sumUs, count) * US_PER_MS == m;
  }

  lemma WrapTwice(a: nat, b: nat)
    ensures Wrap(Wrap(a) + b) == Wrap(a + b)
  {
  }

  /** Every reported percentile, in terms of the samples: close to the exact one, and in order. */
  lemma PercentilesAreGood(samples: seq<nat>, q: real, r: real)
    requires |samples| > 0 && q <= r
    ensures 1 <= Rank(q, |samples|) <= |samples|
    ensures var exact := ToMs(Exact(samples, Rank(q, |samples|)));
      && PercentileOf(samples, q) <= exact + exact / 64.0
      && (PercentileOf(samples, q) >= exact <==> Exact(samples, Rank(q, |samples|)) <= MAX_VALUE)
    ensures PercentileOf(samples, q) <= PercentileOf(samples, r)
  {
    hide Rank, Estimate, Exact;
    RankInRange(q, |samples|);
    RankInRange(r, |samples|);
    RankIsMonotone(q, r, |samples|);
    EstimateIsClose(samples, Rank(q, |samples|));
    EstimateIsMonotone(samples, Rank(q, |samples|), Rank(r, |samples|));
  }
}
