/** Largest-Triangle-Three-Buckets downsampling of a chart series
    (panel/panel-backend/web/static/js/charts.js), in exact arithmetic. */
module Lttb {

  /** One sample; `vals` holds the metrics the sample carries. */
  datatype Point = Point(ts: real, vals: map<string, real>)

  /** `data[j][key] || 0`: a missing metric counts as zero. */
  function Value(p: Point, key: string): real {
    if key in p.vals then p.vals[key] else 0.0
  }

  /** A point of the plane: x is the timestamp, y the value of the chosen metric. */
  datatype Vec = Vec(x: real, y: real)

  function At(p: Point, key: string): Vec {
    Vec(p.ts, Value(p, key))
  }

  function Series(data: seq<Point>, key: string): (xs: seq<Vec>)
    ensures |xs| == |data|
    ensures forall i | 0 <= i < |xs| :: xs[i] == At(data[i], key)
  {
    seq(|data|, i requires 0 <= i < |data| => At(data[i], key))
  }

  // ---------- bucket boundaries ----------

  function BucketSize(n: nat, t: nat): real
    requires t > 2
  {
    (n as real - 2.0) / (t as real - 2.0)
  }

  /** First index of bucket i+1; bucket i is Boundary(i-1) .. Boundary(i). */
  function Boundary(n: nat, t: nat, i: nat): int
    requires t > 2
  {
    (i as real * BucketSize(n, t)).Floor + 1
  }

  function Max(a: int, b: int): int {
    if a < b then b else a
  }

  function Min(a: int, b: int): int {
    if a < b then a else b
  }

  lemma QuotientAboveOne(b: real, d: real)
    requires d > 0.0 && b * d > d
    ensures b > 1.0
  {
    assert (b - 1.0) * d > 0.0;
  }

  lemma BucketSizeAboveOne(n: nat, t: nat)
    requires n > t > 2
    ensures BucketSize(n, t) > 1.0
    ensures (t - 2) as real * BucketSize(n, t) == (n - 2) as real
  {
    var b, d := BucketSize(n, t), t as real - 2.0;
    assert b * d == n as real - 2.0;
    QuotientAboveOne(b, d);
  }

  lemma BoundaryStep(n: nat, t: nat, i: nat)
    requires n > t > 2
    ensures Boundary(n, t, i) < Boundary(n, t, i + 1)
  {
    var b := BucketSize(n, t);
    BucketSizeAboveOne(n, t);
    var lo := i as real * b;
    assert (i + 1) as real * b == lo + b;
    assert (lo + b).Floor >= lo.Floor + 1;
  }

  lemma {:induction false} BoundaryMonotone(n: nat, t: nat, i: nat, j: nat)
    requires n > t > 2 && i < j
    ensures Boundary(n, t, i) + (j - i) <= Boundary(n, t, j)
    decreases j - i
  {
    BoundaryStep(n, t, j - 1);
    if i < j - 1 {
      BoundaryMonotone(n, t, i, j - 1);
    }
  }

  /** The inner buckets start at index 1 and the last one stops right before the final point. */
  lemma BoundaryEnds(n: nat, t: nat)
    requires n > t > 2
    ensures Boundary(n, t, 0) == 1
    ensures Boundary(n, t, t - 2) == n - 1
    ensures Boundary(n, t, t - 1) >= n
  {
    BucketSizeAboveOne(n, t);
    BoundaryStep(n, t, t - 2);
  }

  /** Index k lies in bucket i. */
  ghost predicate InBucket(n: nat, t: nat, i: int, k: int)
    requires t > 2
  {
    1 <= i < t - 1 && Boundary(n, t, i - 1) <= k < Boundary(n, t, i)
  }

  ghost predicate IsInner(n: nat, k: int) {
    1 <= k <= n - 2
  }

  /** Bucket i is non-empty, and so is the bucket after it that the mean is taken over. */
  lemma BucketBounds(n: nat, t: nat, i: nat)
    requires n > t > 2 && 1 <= i < t - 1
    ensures 1 <= Boundary(n, t, i - 1) < Boundary(n, t, i) <= n - 1
    ensures Boundary(n, t, i) < Min(Boundary(n, t, i + 1), n) <= n
  {
    BoundaryEnds(n, t);
    BoundaryStep(n, t, i - 1);
    BoundaryStep(n, t, i);
    if i > 1 { BoundaryMonotone(n, t, 0, i - 1); }
    if i < t - 2 { BoundaryMonotone(n, t, i, t - 2); }
  }

  /** The t-2 buckets partition exactly the inner indices 1 .. n-2; the bucket after the last one
      is the final point alone. */
  lemma BucketsPartition(n: nat, t: nat)
    requires n > t > 2
    ensures forall k :: IsInner(n, k) <==> exists i :: InBucket(n, t, i, k)
    ensures forall k, i, j | InBucket(n, t, i, k) && InBucket(n, t, j, k) :: i == j
    ensures Boundary(n, t, t - 2) == n - 1 && Min(Boundary(n, t, t - 1), n) == n
  {
    BoundaryEnds(n, t);
    forall k
      ensures IsInner(n, k) <==> exists i :: InBucket(n, t, i, k)
    {
      if IsInner(n, k) {
        var i := BucketOf(n, t, k, t - 2);
        assert InBucket(n, t, i, k);
      }
      forall i | InBucket(n, t, i, k)
        ensures IsInner(n, k)
      {
        BucketBounds(n, t, i);
      }
    }
    forall k, i, j | InBucket(n, t, i, k) && InBucket(n, t, j, k)
      ensures i == j
    {
      if i < j - 1 { BoundaryMonotone(n, t, i, j - 1); }
      if j < i - 1 { BoundaryMonotone(n, t, j, i - 1); }
    }
  }

  lemma {:induction false} BucketOf(n: nat, t: nat, k: nat, top: nat) returns (i: nat)
    requires n > t > 2 && 1 <= top <= t - 2
    requires 1 <= k < Boundary(n, t, top)
    ensures 1 <= i <= top && Boundary(n, t, i - 1) <= k < Boundary(n, t, i)
    decreases top
  {
    BoundaryEnds(n, t);
    if Boundary(n, t, top - 1) <= k {
      i := top;
    } else {
      i := BucketOf(n, t, k, top - 1);
    }
  }

  // ---------- what is selected ----------

  function Sum(zs: seq<real>, lo: nat, hi: nat): real
    requires lo <= hi <= |zs|
    decreases hi
  {
    if lo == hi then 0.0 else Sum(zs, lo, hi - 1) + zs[hi - 1]
  }

  function Xs(ps: seq<Vec>): (r: seq<real>)
    ensures |r| == |ps| && forall i | 0 <= i < |ps| :: r[i] == ps[i].x
  {
    seq(|ps|, i requires 0 <= i < |ps| => ps[i].x)
  }

  function Ys(ps: seq<Vec>): (r: seq<real>)
    ensures |r| == |ps| && forall i | 0 <= i < |ps| :: r[i] == ps[i].y
  {
    seq(|ps|, i requires 0 <= i < |ps| => ps[i].y)
  }

  function Mean(ps: seq<Vec>, lo: nat, hi: nat): Vec
    requires lo < hi <= |ps|
  {
    Vec(Sum(Xs(ps), lo, hi) / (hi - lo) as real, Sum(Ys(ps), lo, hi) / (hi - lo) as real)
  }

  function Abs(x: real): real {
    if x < 0.0 then -x else x
  }

  /** Twice the area of the triangle a, p, avg. */
  function Area(a: Vec, avg: Vec, p: Vec): real {
    Abs((a.x - avg.x) * (p.y - a.y) - (a.x - p.x) * (avg.y - a.y))
  }

  /** m is the first index of lo .. hi whose triangle with a and avg is largest. */
  ghost predicate FirstLargest(xs: seq<Vec>, lo: int, hi: int, a: Vec, avg: Vec, m: int)
    requires 0 <= lo <= hi <= |xs|
  {
    && lo <= m < hi
    && forall j | lo <= j < hi ::
         && Area(a, avg, xs[j]) <= Area(a, avg, xs[m])
         && (j < m ==> Area(a, avg, xs[j]) < Area(a, avg, xs[m]))
  }

  /** idx[i] is the right choice for bucket i, given the choice idx[i-1] before it. */
  ghost predicate ChosenAt(xs: seq<Vec>, t: nat, i: nat, prev: int, m: int)
    requires |xs| > t > 2 && 1 <= i < t - 1
  {
    var n := |xs|;
    var lo, hi, next := Boundary(n, t, i - 1), Boundary(n, t, i), Min(Boundary(n, t, i + 1), n);
    && 0 <= prev < n
    && 0 <= lo < hi < next <= n
    && FirstLargest(xs, lo, hi, xs[prev], Mean(xs, hi, next), m)
  }

  /** The source indices of a proper downsampling of xs to t points. */
  ghost predicate IsSelection(xs: seq<Vec>, t: nat, idx: seq<int>)
    requires |xs| > t > 2
  {
    && |idx| == t
    && idx[0] == 0
    && idx[t - 1] == |xs| - 1
    && forall i | 1 <= i < t - 1 :: ChosenAt(xs, t, i, idx[i - 1], idx[i])
  }

  /** The source indices of the result in every case, degenerate thresholds included. */
  ghost predicate IsDownsample(xs: seq<Vec>, t: nat, idx: seq<int>) {
    if |xs| <= t then idx == seq(|xs|, i => i)
    else if t <= 2 then idx == [0, |xs| - 1]
    else IsSelection(xs, t, idx)
  }

  function Pick(data: seq<Point>, idx: seq<int>): (out: seq<Point>)
    requires forall i | 0 <= i < |idx| :: 0 <= idx[i] < |data|
    ensures |out| == |idx|
    ensures forall i | 0 <= i < |idx| :: out[i] == data[idx[i]]
  {
    seq(|idx|, i requires 0 <= i < |idx| => data[idx[i]])
  }

  /** out consists of the points a proper downsampling selects. */
  ghost predicate IsDownsampleOf(data: seq<Point>, key: string, t: nat, out: seq<Point>) {
    exists idx :: IsDownsample(Series(data, key), t, idx) && Selects(data, idx, out)
  }

  ghost predicate Selects(data: seq<Point>, idx: seq<int>, out: seq<Point>) {
    (forall i | 0 <= i < |idx| :: 0 <= idx[i] < |data|) && out == Pick(data, idx)
  }

  // ---------- the algorithm ----------

  /** idx holds the first point and the choices of the buckets before i. */
  ghost predicate ChosenUpTo(xs: seq<Vec>, t: nat, i: nat, idx: seq<int>) {
    && |idx| == i >= 1
    && idx[0] == 0 < |xs|
    && (forall k | 0 <= k < i :: 0 <= idx[k] < |xs|)
    && (|xs| > t > 2 && i < t ==> forall k | 1 <= k < i :: ChosenAt(xs, t, k, idx[k - 1], idx[k]))
  }

  lemma ChosenUpToStep(xs: seq<Vec>, t: nat, i: nat, idx: seq<int>, m: int)
    requires |xs| > t > 2 && 1 <= i < t - 1
    requires ChosenUpTo(xs, t, i, idx) && ChosenAt(xs, t, i, idx[i - 1], m)
    ensures ChosenUpTo(xs, t, i + 1, idx + [m])
  {
    var more := idx + [m];
    forall k | 1 <= k < i + 1
      ensures ChosenAt(xs, t, k, more[k - 1], more[k])
    {
      assert k < i ==> more[k] == idx[k];
      assert more[k - 1] == idx[k - 1];
    }
  }

  lemma PickAppend(data: seq<Point>, idx: seq<int>, m: int)
    requires forall k | 0 <= k < |idx| :: 0 <= idx[k] < |data|
    requires 0 <= m < |data|
    ensures Pick(data, idx + [m]) == Pick(data, idx) + [data[m]]
  {
  }

  /** The average of the points of a bucket. */
  method BucketMean(data: seq<Point>, key: string, nextStart: nat, nextEnd: nat) returns (avg: Vec)
    requires nextStart < nextEnd <= |data|
    ensures avg == Mean(Series(data, key), nextStart, nextEnd)
  {
    ghost var xs := Series(data, key);
    var avgTS, avgVal := 0.0, 0.0;
    for j := nextStart to nextEnd
      invariant avgTS == Sum(Xs(xs), nextStart, j) && avgVal == Sum(Ys(xs), nextStart, j)
    {
      avgTS := avgTS + data[j].ts;
      avgVal := avgVal + Value(data[j], key);
    }
    var cnt := nextEnd - nextStart;
    return Vec(avgTS / cnt as real, avgVal / cnt as real);
  }

  /** One round of the bucket loop: the mean of the next bucket, then the first point of the
      current bucket spanning the largest triangle with it and the point chosen before. */
  method LargestInBucket(data: seq<Point>, key: string, a: nat, rangeStart: nat, rangeEnd: nat, nextEnd: nat)
    returns (maxIdx: nat)
    requires a < |data| && rangeStart < rangeEnd < nextEnd <= |data|
    ensures var xs := Series(data, key);
            FirstLargest(xs, rangeStart, rangeEnd, xs[a], Mean(xs, rangeEnd, nextEnd), maxIdx)
  {
    ghost var xs := Series(data, key);
    var avg := BucketMean(data, key, rangeEnd, nextEnd);
    var maxArea := -1.0;
    maxIdx := rangeStart;
    for j := rangeStart to rangeEnd
      invariant j == rangeStart ==> maxArea == -1.0 && maxIdx == rangeStart
      invariant j > rangeStart ==> rangeStart <= maxIdx < j && maxArea == Area(xs[a], avg, xs[maxIdx])
      invariant j > rangeStart ==> FirstLargest(xs, rangeStart, j, xs[a], avg, maxIdx)
    {
      var area := Area(At(data[a], key), avg, At(data[j], key));
      if area > maxArea {
        maxArea := area;
        maxIdx := j;
      }
    }
  }

  /** `lttb`. For a threshold of at most two the bucket width divides by zero or is negative,
      but the bucket loop does not run and only the two end points are returned. */
  method Downsample(data: seq<Point>, threshold: nat, key: string) returns (out: seq<Point>)
    ensures IsDownsampleOf(data, key, threshold, out)
  {
    ghost var xs := Series(data, key);
    var n := |data|;
    if n <= threshold {
      assert Selects(data, seq(n, i => i), data);
      return data;
    }
    out := [data[0]];
    ghost var idx := [0];
    var a := 0;
    var i := 1;
    while i < threshold - 1
      invariant 1 <= i <= Max(threshold - 1, 1) && 0 <= a < n
      invariant ChosenUpTo(xs, threshold, i, idx) && idx[i - 1] == a
      invariant out == Pick(data, idx)
    {
      var rangeStart := Boundary(n, threshold, i - 1);
      var rangeEnd := Min(Boundary(n, threshold, i), n);
      var nextEnd := Min(Boundary(n, threshold, i + 1), n);
      BucketBounds(n, threshold, i);
      var maxIdx := LargestInBucket(data, key, a, rangeStart, rangeEnd, nextEnd);
      assert ChosenAt(xs, threshold, i, a, maxIdx);
      ChosenUpToStep(xs, threshold, i, idx, maxIdx);
      PickAppend(data, idx, maxIdx);
      out := out + [data[maxIdx]];
      idx := idx + [maxIdx];
      a := maxIdx;
      i := i + 1;
    }
    PickAppend(data, idx, n - 1);
    out := out + [data[n - 1]];
    assert IsDownsample(xs, threshold, idx + [n - 1]) && Selects(data, idx + [n - 1], out);
  }

  // ---------- what the result is ----------

  /** Exactly t points, starting with the first sample and ending with the last, in strictly
      increasing source order, one from each bucket. */
  lemma SelectionShape(xs: seq<Vec>, t: nat, idx: seq<int>)
    requires |xs| > t > 2 && IsSelection(xs, t, idx)
    ensures |idx| == t && idx[0] == 0 && idx[t - 1] == |xs| - 1
    ensures forall i, j | 0 <= i < j < t :: 0 <= idx[i] < idx[j] < |xs|
    ensures forall i | 1 <= i < t - 1 :: InBucket(|xs|, t, i, idx[i])
  {
    var n := |xs|;
    forall i | 1 <= i < t - 1
      ensures InBucket(n, t, i, idx[i]) && 0 < idx[i] < n - 1
    {
      assert ChosenAt(xs, t, i, idx[i - 1], idx[i]);
      BucketBounds(n, t, i);
    }
    forall i, j | 0 <= i < j < t
      ensures 0 <= idx[i] < idx[j] < n
    {
      if 1 <= i && j < t - 1 {
        assert InBucket(n, t, i, idx[i]) && InBucket(n, t, j, idx[j]);
        if i < j - 1 { BoundaryMonotone(n, t, i, j - 1); }
      }
    }
  }

  /** The length of the result, for every series and threshold: the threshold is met exactly
      unless it is below two. */
  lemma DownsampleLength(xs: seq<Vec>, t: nat, idx: seq<int>)
    requires IsDownsample(xs, t, idx)
    ensures |idx| == Min(|xs|, t) <==> |xs| <= t || t >= 2
    ensures |xs| > t && t < 2 ==> |idx| == 2
    ensures |idx| >= 2 ==> idx[0] == 0 && idx[|idx| - 1] == |xs| - 1
  {
  }

  /** Nothing about the selection is left open: two selections of one series are the same. */
  lemma SelectionUnique(xs: seq<Vec>, t: nat, idx: seq<int>, idx': seq<int>)
    requires |xs| > t > 2 && IsSelection(xs, t, idx) && IsSelection(xs, t, idx')
    ensures idx == idx'
  {
    forall i | 0 <= i < t
      ensures idx[i] == idx'[i]
    {
      ChoiceUnique(xs, t, idx, idx', i);
    }
  }

  lemma {:induction false} ChoiceUnique(xs: seq<Vec>, t: nat, idx: seq<int>, idx': seq<int>, i: nat)
    requires |xs| > t > 2 && IsSelection(xs, t, idx) && IsSelection(xs, t, idx')
    requires i < t
    ensures idx[i] == idx'[i]
  {
    if 0 < i < t - 1 {
      ChoiceUnique(xs, t, idx, idx', i - 1);
      assert ChosenAt(xs, t, i, idx[i - 1], idx[i]);
      assert ChosenAt(xs, t, i, idx'[i - 1], idx'[i]);
    }
  }

  // ---------- what is measured ----------

  /** The boundaries without division: an even split of the inner indices, rounded down. */
  lemma BoundaryExact(n: nat, t: nat, i: nat)
    requires n > t > 2
    ensures (Boundary(n, t, i) - 1) * (t - 2) <= i * (n - 2) < Boundary(n, t, i) * (t - 2)
  {
    var x, m := i as real * BucketSize(n, t), i * (n - 2);
    BoundaryScaled(n, t, i, m);
    BoundaryOfFloor(x.Floor, Boundary(n, t, i), x, t - 2, m);
  }

  lemma BoundaryScaled(n: nat, t: nat, i: nat, m: int)
    requires n > t > 2 && m == i * (n - 2)
    ensures i as real * BucketSize(n, t) >= 0.0
    ensures i as real * BucketSize(n, t) * (t - 2) as real == m as real
  {
    var b, d := BucketSize(n, t), (t - 2) as real;
    BucketSizeAboveOne(n, t);
    IntTimes(i, n - 2);
    ProductChain(i as real, b, d, (n - 2) as real);
  }

  lemma BoundaryOfFloor(f: int, b: int, x: real, d: int, m: int)
    requires f == x.Floor && b == f + 1 && d > 0 && x >= 0.0 && x * d as real == m as real
    ensures (b - 1) * d <= m < b * d
  {
    FloorScaled(x, d, m);
  }

  lemma ProductChain(x: real, b: real, d: real, m: real)
    requires d * b == m
    ensures x * b * d == x * m
  {
    assert x * b * d == x * (d * b);
  }

  lemma IntOrder(a: int, b: int)
    ensures a as real <= b as real ==> a <= b
    ensures a as real < b as real ==> a < b
  {
  }

  lemma {:induction false} IntTimes(a: nat, b: int)
    ensures (a * b) as real == a as real * b as real
  {
    if a > 0 {
      IntTimes(a - 1, b);
      assert a * b == (a - 1) * b + b;
      assert a as real * b as real == (a - 1) as real * b as real + b as real;
    }
  }

  lemma FloorScaled(x: real, d: int, m: int)
    requires d > 0 && x >= 0.0 && x * d as real == m as real
    ensures x.Floor * d <= m < (x.Floor + 1) * d
  {
    LowerScaled(x, x.Floor, d, m);
    UpperScaled(x, x.Floor + 1, d, m);
  }

  lemma LowerScaled(x: real, f: nat, d: int, m: int)
    requires d > 0 && f as real <= x && x * d as real == m as real
    ensures f * d <= m
  {
    FactorOrder(d as real, f as real, x);
    IntTimes(f, d);
    IntOrder(f * d, m);
  }

  lemma UpperScaled(x: real, g: nat, d: int, m: int)
    requires d > 0 && x < g as real && x * d as real == m as real
    ensures m < g * d
  {
    FactorStrictOrder(d as real, x, g as real);
    IntTimes(g, d);
    IntOrder(m, g * d);
  }

  lemma FactorOrder(d: real, x: real, y: real)
    requires d > 0.0 && x <= y
    ensures x * d <= y * d
  {
    assert (y - x) * d >= 0.0;
  }

  lemma FactorStrictOrder(d: real, x: real, y: real)
    requires d > 0.0 && x < y
    ensures x * d < y * d
  {
    assert (y - x) * d > 0.0;
  }

  /** The mean of one point is that point, and one more point shifts it by its share: this determines the
      mean of every bucket. */
  lemma MeanDetermined(ps: seq<Vec>, lo: nat, hi: nat)
    requires lo < hi < |ps|
    ensures Mean(ps, lo, lo + 1) == ps[lo]
    ensures var m, m', c := Mean(ps, lo, hi), Mean(ps, lo, hi + 1), (hi - lo) as real;
            var c' := (hi + 1 - lo) as real;
            m'.x * c' == m.x * c + ps[hi].x && m'.y * c' == m.y * c + ps[hi].y
  {
    var c := (hi - lo) as real;
    MeanOfOne(ps, lo);
    var c' := (hi + 1 - lo) as real;
    ShareOfOne(Sum(Xs(ps), lo, hi), ps[hi].x, c, Sum(Xs(ps), lo, hi + 1), c');
    ShareOfOne(Sum(Ys(ps), lo, hi), ps[hi].y, c, Sum(Ys(ps), lo, hi + 1), c');
  }

  lemma MeanOfOne(ps: seq<Vec>, lo: nat)
    requires lo < |ps|
    ensures Mean(ps, lo, lo + 1) == ps[lo]
  {
    SumOfOne(Xs(ps), lo);
    SumOfOne(Ys(ps), lo);
    assert (lo + 1 - lo) as real == 1.0;
  }

  lemma SumOfOne(zs: seq<real>, lo: nat)
    requires lo < |zs|
    ensures Sum(zs, lo, lo + 1) == zs[lo]
  {
    assert Sum(zs, lo, lo) == 0.0;
  }

  lemma ShareOfOne(s: real, x: real, c: real, s': real, c': real)
    requires c > 0.0 && c' == c + 1.0 && s' == s + x
    ensures s' / c' * c' == s / c * c + x
  {
    QuotientTimes(s, c);
    QuotientTimes(s', c');
  }

  /** The area against a base of unit length is the distance from it. With `AreaOfImage` this determines the
      area of every triangle. */
  lemma AreaOnUnitBase(x: real, y: real)
    ensures Area(Vec(0.0, 0.0), Vec(1.0, 0.0), Vec(x, y)) == if y < 0.0 then -y else y
  {
  }

  /** Twice the signed area of the triangle of the samples a and p with the point (avgTS, avgVal). */
  function Cross(aTS: real, aVal: real, avgTS: real, avgVal: real, ts: real, val: real): real {
    (aTS - avgTS) * (val - aVal) - (aTS - ts) * (avgVal - aVal)
  }

  /** The metric of a sample, missing ones counting as zero. */
  lemma MetricOf(p: Point, key: string)
    ensures key in p.vals ==> At(p, key) == Vec(p.ts, p.vals[key])
    ensures key !in p.vals ==> At(p, key) == Vec(p.ts, 0.0)
  {
  }

  /** The choice in plain coordinates: no sample of the bucket spans a larger triangle than the chosen one,
      and no earlier one an equally large. */
  lemma ChosenPlainly(data: seq<Point>, key: string, t: nat, idx: seq<int>, i: nat, j: nat)
    requires |data| > t > 2 && IsSelection(Series(data, key), t, idx) && 1 <= i < t - 1
    requires InBucket(|data|, t, i, j)
    ensures 0 <= idx[i - 1] < |data| && InBucket(|data|, t, i, idx[i])
    ensures var n, hi := |data|, Boundary(|data|, t, i);
            && hi < Min(Boundary(n, t, i + 1), n) <= n
            && var avg := Mean(Series(data, key), hi, Min(Boundary(n, t, i + 1), n));
            && var a, p, c := At(data[idx[i - 1]], key), At(data[j], key), At(data[idx[i]], key);
            && var z, zc := Cross(a.x, a.y, avg.x, avg.y, p.x, p.y), Cross(a.x, a.y, avg.x, avg.y, c.x, c.y);
            && (z <= zc || z <= -zc) && (-z <= zc || -z <= -zc)
            && (j < idx[i] ==> (z < zc || z < -zc) && (-z < zc || -z < -zc))
  {
    var xs, n := Series(data, key), |data|;
    assert ChosenAt(xs, t, i, idx[i - 1], idx[i]);
    var avg := Mean(xs, Boundary(n, t, i), Min(Boundary(n, t, i + 1), n));
    AreaOrderPlainly(xs[idx[i - 1]], avg, xs[j], xs[idx[i]]);
  }

  lemma AreaOrderPlainly(a: Vec, avg: Vec, p: Vec, c: Vec)
    ensures var z, zc := Cross(a.x, a.y, avg.x, avg.y, p.x, p.y), Cross(a.x, a.y, avg.x, avg.y, c.x, c.y);
            && (Area(a, avg, p) <= Area(a, avg, c) <==> (z <= zc || z <= -zc) && (-z <= zc || -z <= -zc))
            && (Area(a, avg, p) < Area(a, avg, c) <==> (z < zc || z < -zc) && (-z < zc || -z < -zc))
  {
    AreaIsCross(a, avg, p);
    AreaIsCross(a, avg, c);
    AbsOrder(Cross(a.x, a.y, avg.x, avg.y, p.x, p.y), Cross(a.x, a.y, avg.x, avg.y, c.x, c.y));
  }

  lemma AreaIsCross(a: Vec, avg: Vec, p: Vec)
    ensures Area(a, avg, p) == Abs(Cross(a.x, a.y, avg.x, avg.y, p.x, p.y))
  {
  }

  lemma AbsOrder(z: real, zc: real)
    ensures Abs(z) <= Abs(zc) <==> (z <= zc || z <= -zc) && (-z <= zc || -z <= -zc)
    ensures Abs(z) < Abs(zc) <==> (z < zc || z < -zc) && (-z < zc || -z < -zc)
  {
  }

  /** A bucket in which only sample k lies off the line through the point chosen before and the mean of the
      next bucket yields k: spikes are kept. */
  lemma OnlyPointOffTheLine(xs: seq<Vec>, t: nat, idx: seq<int>, i: nat, k: nat)
    requires |xs| > t > 2 && IsSelection(xs, t, idx) && 1 <= i < t - 1 && InBucket(|xs|, t, i, k)
    requires 0 <= idx[i - 1] < |xs| && Boundary(|xs|, t, i) < Min(Boundary(|xs|, t, i + 1), |xs|)
    requires var avg, a := Mean(xs, Boundary(|xs|, t, i), Min(Boundary(|xs|, t, i + 1), |xs|)), xs[idx[i - 1]];
             forall j | 0 <= j < |xs| && InBucket(|xs|, t, i, j) ::
               Cross(a.x, a.y, avg.x, avg.y, xs[j].x, xs[j].y) == 0.0 <==> j != k
    ensures idx[i] == k
  {
    assert ChosenAt(xs, t, i, idx[i - 1], idx[i]);
    assert InBucket(|xs|, t, i, idx[i]);
    var avg, a := Mean(xs, Boundary(|xs|, t, i), Min(Boundary(|xs|, t, i + 1), |xs|)), xs[idx[i - 1]];
    AreaZeroIff(a, avg, xs[k]);
    AreaZeroIff(a, avg, xs[idx[i]]);
  }

  lemma AreaZeroIff(a: Vec, avg: Vec, p: Vec)
    ensures Area(a, avg, p) >= 0.0
    ensures Area(a, avg, p) == 0.0 <==> Cross(a.x, a.y, avg.x, avg.y, p.x, p.y) == 0.0
  {
    AreaIsCross(a, avg, p);
  }

  /** Five samples, three points: the spike in the middle is chosen. */
  lemma SpikeIsChosen(idx: seq<int>)
    requires IsSelection([Vec(0.0, 0.0), Vec(1.0, 0.0), Vec(2.0, 10.0), Vec(3.0, 0.0), Vec(4.0, 0.0)], 3, idx)
    ensures idx == [0, 2, 4]
  {
    var xs := [Vec(0.0, 0.0), Vec(1.0, 0.0), Vec(2.0, 10.0), Vec(3.0, 0.0), Vec(4.0, 0.0)];
    BoundaryEnds(5, 3);
    BoundaryExact(5, 3, 2);
    assert Sum(Xs(xs), 4, 5) == 4.0 && Sum(Ys(xs), 4, 5) == 0.0;
    assert Mean(xs, 4, 5) == Vec(4.0, 0.0);
    OnlyPointOffTheLine(xs, 3, idx, 1, 2);
  }

  // ---------- invariance ----------

  /** A change of axes. Shifting, stretching by a nonzero factor, swapping the axes and shearing
      generate every invertible affine map of the plane. */
  datatype Motion =
    | Shift(dx: real, dy: real)
    | StretchX(k: real)
    | Swap
    | ShearX(k: real)
  {
    predicate Invertible() {
      StretchX? ==> k != 0.0
    }

    function Apply(p: Vec): Vec {
      match this
      case Shift(dx, dy) => Vec(p.x + dx, p.y + dy)
      case StretchX(k) => Vec(k * p.x, p.y)
      case Swap => Vec(p.y, p.x)
      case ShearX(k) => Vec(p.x + k * p.y, p.y)
    }
  }

  ghost predicate IsImage(m: Motion, xs: seq<Vec>, ys: seq<Vec>) {
    |ys| == |xs| && forall i | 0 <= i < |xs| :: ys[i] == m.Apply(xs[i])
  }

  function Image(m: Motion, xs: seq<Vec>): (ys: seq<Vec>)
    ensures IsImage(m, xs, ys)
  {
    seq(|xs|, i requires 0 <= i < |xs| => m.Apply(xs[i]))
  }

  function Images(ms: seq<Motion>, xs: seq<Vec>): (ys: seq<Vec>)
    ensures |ys| == |xs|
  {
    if ms == [] then xs else Images(ms[1..], Image(ms[0], xs))
  }

  lemma {:induction false} SumShifted(us: seq<real>, d: real, vs: seq<real>, lo: nat, hi: nat)
    requires lo <= hi <= |us| == |vs| && forall i | lo <= i < hi :: vs[i] == us[i] + d
    ensures Sum(vs, lo, hi) == Sum(us, lo, hi) + d * (hi - lo) as real
    decreases hi
  {
    if lo < hi {
      SumShifted(us, d, vs, lo, hi - 1);
      assert d * (hi - lo) as real == d * (hi - 1 - lo) as real + d;
    }
  }

  lemma {:induction false} SumSheared(us: seq<real>, k: real, vs: seq<real>, ws: seq<real>, lo: nat, hi: nat)
    requires lo <= hi <= |us| == |vs| == |ws| && forall i | lo <= i < hi :: ws[i] == us[i] + k * vs[i]
    ensures Sum(ws, lo, hi) == Sum(us, lo, hi) + k * Sum(vs, lo, hi)
    decreases hi
  {
    if lo < hi {
      SumSheared(us, k, vs, ws, lo, hi - 1);
      assert k * (Sum(vs, lo, hi - 1) + vs[hi - 1]) == k * Sum(vs, lo, hi - 1) + k * vs[hi - 1];
    }
  }

  lemma {:induction false} SumStretched(k: real, us: seq<real>, vs: seq<real>, lo: nat, hi: nat)
    requires lo <= hi <= |us| == |vs| && forall i | lo <= i < hi :: vs[i] == k * us[i]
    ensures Sum(vs, lo, hi) == k * Sum(us, lo, hi)
    decreases hi
  {
    if lo < hi {
      SumStretched(k, us, vs, lo, hi - 1);
      assert k * (Sum(us, lo, hi - 1) + us[hi - 1]) == k * Sum(us, lo, hi - 1) + k * us[hi - 1];
    }
  }

  lemma {:induction false} SumSame(us: seq<real>, vs: seq<real>, lo: nat, hi: nat)
    requires lo <= hi <= |us| == |vs| && forall i | lo <= i < hi :: vs[i] == us[i]
    ensures Sum(vs, lo, hi) == Sum(us, lo, hi)
    decreases hi
  {
    if lo < hi {
      SumSame(us, vs, lo, hi - 1);
    }
  }

  lemma QuotientUnique(s: real, c: real, q: real)
    requires c > 0.0 && q * c == s
    ensures s / c == q
  {
  }

  lemma QuotientTimes(s: real, c: real)
    requires c > 0.0
    ensures s / c * c == s
  {
  }

  lemma TimesAssociates(k: real, q: real, c: real)
    ensures k * q * c == k * (q * c)
  {
  }

  lemma TimesDistributes(q: real, r: real, c: real)
    ensures (q + r) * c == q * c + r * c
  {
  }

  lemma MeanOfShift(s: real, d: real, c: real, s': real)
    requires c > 0.0 && s' == s + d * c
    ensures s' / c == s / c + d
  {
    var q := s / c;
    QuotientTimes(s, c);
    TimesDistributes(q, d, c);
    QuotientUnique(s', c, q + d);
  }

  lemma MeanOfStretch(k: real, s: real, c: real, s': real)
    requires c > 0.0 && s' == k * s
    ensures s' / c == k * (s / c)
  {
    var q := s / c;
    QuotientTimes(s, c);
    TimesAssociates(k, q, c);
    QuotientUnique(s', c, k * q);
  }

  lemma MeanOfSum(s: real, r: real, c: real, s': real)
    requires c > 0.0 && s' == s + r
    ensures s' / c == s / c + r / c
  {
    var q, q' := s / c, r / c;
    QuotientTimes(s, c);
    QuotientTimes(r, c);
    TimesDistributes(q, q', c);
    QuotientUnique(s', c, q + q');
  }

  lemma MeanOfShear(k: real, s: real, r: real, c: real, s': real)
    requires c > 0.0 && s' == s + k * r
    ensures s' / c == s / c + k * (r / c)
  {
    var kr := k * r;
    MeanOfStretch(k, r, c, kr);
    MeanOfSum(s, kr, c, s');
  }

  lemma MeanOfShiftImage(m: Motion, xs: seq<Vec>, ys: seq<Vec>, lo: nat, hi: nat)
    requires m.Shift? && IsImage(m, xs, ys) && lo < hi <= |xs|
    ensures Mean(ys, lo, hi) == m.Apply(Mean(xs, lo, hi))
  {
    var c := (hi - lo) as real;
    SumShifted(Xs(xs), m.dx, Xs(ys), lo, hi);
    SumShifted(Ys(xs), m.dy, Ys(ys), lo, hi);
    MeanOfShift(Sum(Xs(xs), lo, hi), m.dx, c, Sum(Xs(ys), lo, hi));
    MeanOfShift(Sum(Ys(xs), lo, hi), m.dy, c, Sum(Ys(ys), lo, hi));
  }

  lemma MeanOfStretchXImage(m: Motion, xs: seq<Vec>, ys: seq<Vec>, lo: nat, hi: nat)
    requires m.StretchX? && IsImage(m, xs, ys) && lo < hi <= |xs|
    ensures Mean(ys, lo, hi) == m.Apply(Mean(xs, lo, hi))
  {
    SumStretched(m.k, Xs(xs), Xs(ys), lo, hi);
    SumSame(Ys(xs), Ys(ys), lo, hi);
    MeanOfStretch(m.k, Sum(Xs(xs), lo, hi), (hi - lo) as real, Sum(Xs(ys), lo, hi));
  }

  lemma MeanOfSwapImage(m: Motion, xs: seq<Vec>, ys: seq<Vec>, lo: nat, hi: nat)
    requires m.Swap? && IsImage(m, xs, ys) && lo < hi <= |xs|
    ensures Mean(ys, lo, hi) == m.Apply(Mean(xs, lo, hi))
  {
    SumSame(Xs(xs), Ys(ys), lo, hi);
    SumSame(Ys(xs), Xs(ys), lo, hi);
  }

  lemma MeanOfShearXImage(m: Motion, xs: seq<Vec>, ys: seq<Vec>, lo: nat, hi: nat)
    requires m.ShearX? && IsImage(m, xs, ys) && lo < hi <= |xs|
    ensures Mean(ys, lo, hi) == m.Apply(Mean(xs, lo, hi))
  {
    SumSheared(Xs(xs), m.k, Ys(xs), Xs(ys), lo, hi);
    SumSame(Ys(xs), Ys(ys), lo, hi);
    MeanOfShear(m.k, Sum(Xs(xs), lo, hi), Sum(Ys(xs), lo, hi), (hi - lo) as real, Sum(Xs(ys), lo, hi));
  }

  /** The mean of an image is the image of the mean. */
  lemma MeanOfImage(m: Motion, xs: seq<Vec>, ys: seq<Vec>, lo: nat, hi: nat)
    requires IsImage(m, xs, ys) && lo < hi <= |xs|
    ensures Mean(ys, lo, hi) == m.Apply(Mean(xs, lo, hi))
  {
    match m
    case Shift(_, _) => MeanOfShiftImage(m, xs, ys, lo, hi);
    case StretchX(_) => MeanOfStretchXImage(m, xs, ys, lo, hi);
    case Swap => MeanOfSwapImage(m, xs, ys, lo, hi);
    case ShearX(_) => MeanOfShearXImage(m, xs, ys, lo, hi);
  }

  /** The factor all triangle areas are multiplied by. */
  function AreaFactor(m: Motion): real {
    if m.StretchX? then Abs(m.k) else 1.0
  }

  lemma AbsProduct(x: real, y: real)
    ensures Abs(x * y) == Abs(x) * Abs(y)
  {
  }

  lemma AreaOfStretched(k: real, a: Vec, avg: Vec, p: Vec)
    ensures Area(StretchX(k).Apply(a), StretchX(k).Apply(avg), StretchX(k).Apply(p)) == Abs(k) * Area(a, avg, p)
  {
    var z := (a.x - avg.x) * (p.y - a.y) - (a.x - p.x) * (avg.y - a.y);
    StretchedCross(k, a.x, avg.x, p.x, p.y - a.y, avg.y - a.y);
    AbsProduct(k, z);
  }

  lemma StretchedCross(k: real, ax: real, gx: real, px: real, vy: real, uy: real)
    ensures (k * ax - k * gx) * vy - (k * ax - k * px) * uy == k * ((ax - gx) * vy - (ax - px) * uy)
  {
  }

  lemma AreaOfSheared(k: real, a: Vec, avg: Vec, p: Vec)
    ensures Area(ShearX(k).Apply(a), ShearX(k).Apply(avg), ShearX(k).Apply(p)) == Area(a, avg, p)
  {
    ShearedCross(k, a.x, a.y, avg.x, avg.y, p.x, p.y);
  }

  lemma ShearedCross(k: real, ax: real, ay: real, gx: real, gy: real, px: real, py: real)
    ensures (ax + k * ay - (gx + k * gy)) * (py - ay) - (ax + k * ay - (px + k * py)) * (gy - ay)
         == (ax - gx) * (py - ay) - (ax - px) * (gy - ay)
  {
  }

  lemma AreaOfSwapped(a: Vec, avg: Vec, p: Vec)
    ensures Area(Swap.Apply(a), Swap.Apply(avg), Swap.Apply(p)) == Area(a, avg, p)
  {
  }

  lemma AreaOfShifted(dx: real, dy: real, a: Vec, avg: Vec, p: Vec)
    ensures Area(Shift(dx, dy).Apply(a), Shift(dx, dy).Apply(avg), Shift(dx, dy).Apply(p)) == Area(a, avg, p)
  {
    assert a.x + dx - (avg.x + dx) == a.x - avg.x && p.y + dy - (a.y + dy) == p.y - a.y;
    assert a.x + dx - (p.x + dx) == a.x - p.x && avg.y + dy - (a.y + dy) == avg.y - a.y;
  }

  lemma AreaOfImage(m: Motion, a: Vec, avg: Vec, p: Vec)
    ensures Area(m.Apply(a), m.Apply(avg), m.Apply(p)) == AreaFactor(m) * Area(a, avg, p)
  {
    match m
    case Shift(dx, dy) => AreaOfShifted(dx, dy, a, avg, p);
    case StretchX(k) => AreaOfStretched(k, a, avg, p);
    case Swap => AreaOfSwapped(a, avg, p);
    case ShearX(k) => AreaOfSheared(k, a, avg, p);
  }

  lemma ScaledOrder(k: real, x: real, y: real, x': real, y': real)
    requires k > 0.0 && x' == k * x && y' == k * y
    ensures x < y <==> x' < y'
    ensures x <= y <==> x' <= y'
  {
    assert y' - x' == k * (y - x);
  }

  lemma AreaOrderOfImage(m: Motion, a: Vec, avg: Vec, p: Vec, q: Vec)
    requires m.Invertible()
    ensures var a', avg' := m.Apply(a), m.Apply(avg);
            && (Area(a, avg, p) <= Area(a, avg, q) <==> Area(a', avg', m.Apply(p)) <= Area(a', avg', m.Apply(q)))
            && (Area(a, avg, p) < Area(a, avg, q) <==> Area(a', avg', m.Apply(p)) < Area(a', avg', m.Apply(q)))
  {
    AreaOfImage(m, a, avg, p);
    AreaOfImage(m, a, avg, q);
    ScaledOrder(AreaFactor(m), Area(a, avg, p), Area(a, avg, q),
                Area(m.Apply(a), m.Apply(avg), m.Apply(p)), Area(m.Apply(a), m.Apply(avg), m.Apply(q)));
  }

  lemma ChoiceOfImage(m: Motion, xs: seq<Vec>, ys: seq<Vec>, t: nat, i: nat, prev: int, c: int)
    requires |xs| > t > 2 && 1 <= i < t - 1 && IsImage(m, xs, ys) && m.Invertible()
    requires ChosenAt(xs, t, i, prev, c)
    ensures ChosenAt(ys, t, i, prev, c)
  {
    var n := |xs|;
    var lo, hi, next := Boundary(n, t, i - 1), Boundary(n, t, i), Min(Boundary(n, t, i + 1), n);
    MeanOfImage(m, xs, ys, hi, next);
    var a, avg := xs[prev], Mean(xs, hi, next);
    forall j | lo <= j < hi
      ensures Area(m.Apply(a), m.Apply(avg), ys[j]) <= Area(m.Apply(a), m.Apply(avg), ys[c])
      ensures j < c ==> Area(m.Apply(a), m.Apply(avg), ys[j]) < Area(m.Apply(a), m.Apply(avg), ys[c])
    {
      AreaOrderOfImage(m, a, avg, xs[j], xs[c]);
    }
  }

  lemma SelectionKeptByMotion(m: Motion, xs: seq<Vec>, ys: seq<Vec>, t: nat, idx: seq<int>)
    requires |xs| > t > 2 && IsSelection(xs, t, idx) && IsImage(m, xs, ys) && m.Invertible()
    ensures IsSelection(ys, t, idx)
  {
    forall i | 1 <= i < t - 1
      ensures ChosenAt(ys, t, i, idx[i - 1], idx[i])
    {
      assert ChosenAt(xs, t, i, idx[i - 1], idx[i]);
      ChoiceOfImage(m, xs, ys, t, i, idx[i - 1], idx[i]);
    }
  }

  /** Every invertible affine change of axes keeps the selection: shifting or rescaling timestamps
      or values, in any combination, changes no chosen index. */
  lemma {:induction false} SelectionInvariant(ms: seq<Motion>, xs: seq<Vec>, t: nat, idx: seq<int>)
    requires |xs| > t > 2 && IsSelection(xs, t, idx)
    requires forall m | m in ms :: m.Invertible()
    ensures IsSelection(Images(ms, xs), t, idx)
    decreases |ms|
  {
    if ms != [] {
      var ys := Image(ms[0], xs);
      SelectionKeptByMotion(ms[0], xs, ys, t, idx);
      SelectionInvariant(ms[1..], ys, t, idx);
    }
  }

  /** The common case: timestamps rescaled by p and shifted by d, values rescaled by q and shifted by e. */
  lemma SelectionKeptByRescaling(data: seq<Point>, data': seq<Point>, key: string, t: nat, idx: seq<int>,
                                 p: real, d: real, q: real, e: real)
    requires |data| == |data'| > t > 2 && p != 0.0 && q != 0.0
    requires forall i | 0 <= i < |data| ::
               data'[i].ts == p * data[i].ts + d && Value(data'[i], key) == q * Value(data[i], key) + e
    requires IsSelection(Series(data, key), t, idx)
    ensures IsSelection(Series(data', key), t, idx)
  {
    var xs, stretch, stretch' := Series(data, key), StretchX(p), StretchX(q);
    var s1 := Image(stretch, xs);
    var s2 := Image(Swap, s1);
    var s3 := Image(stretch', s2);
    var s4 := Image(Swap, s3);
    SelectionKeptByMotion(stretch, xs, s1, t, idx);
    SelectionKeptByMotion(Swap, s1, s2, t, idx);
    SelectionKeptByMotion(stretch', s2, s3, t, idx);
    SelectionKeptByMotion(Swap, s3, s4, t, idx);
    SelectionKeptByMotion(Shift(d, e), s4, Series(data', key), t, idx);
  }

  // ---------- the caller ----------

  /** The point budget of `drawChart`: eight tenths of the width (320 when it is zero), kept in 150 .. 500. */
  function PointBudget(width: real): (r: int)
    ensures 150 <= r <= 500
    ensures width == 0.0 ==> r == 256
    ensures width < 187.5 && width != 0.0 ==> r == 150
    ensures 187.5 <= width <= 625.0 ==> r as real <= 0.8 * width < r as real + 1.0
    ensures width > 625.0 ==> r == 500
  {
    var w := if width == 0.0 then 320.0 else width;
    Min(Max((w * 0.8).Floor, 150), 500)
  }

  /** The series `drawChart` plots. It never exceeds the budget, and every invertible affine change
      of time and value axis plots the same samples. */
  method PlottedSamples(samples: seq<Point>, width: real, key: string) returns (out: seq<Point>)
    ensures |out| == Min(|samples|, PointBudget(width))
    ensures IsDownsampleOf(samples, key, PointBudget(width), out)
  {
    var maxPts := PointBudget(width);
    if |samples| > maxPts {
      out := Downsample(samples, maxPts, key);
      ghost var idx :| IsDownsample(Series(samples, key), maxPts, idx) && Selects(samples, idx, out);
      DownsampleLength(Series(samples, key), maxPts, idx);
    } else {
      out := samples;
      assert Selects(samples, seq(|samples|, i => i), out);
    }
  }
}
