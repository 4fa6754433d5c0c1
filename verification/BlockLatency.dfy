/** Latency histograms of the block tracker: the log2 bucket of a latency, the
    histogram of a list of latencies, and the percentile read back from it. */
module BlockLatency {
  import opened Naturals
  import opened Words

  const HISTOGRAM_BUCKETS: nat := 32

  // ----------------------------------------------------------------- bucket

  function Log2Floor(x: nat): nat {
    if x < 2 then 0 else 1 + Log2Floor(x / 2)
  }

  /** Clamped floor(log2): 0 and 1 share bucket 0, everything from 2^31 on
      shares the last one. */
  function Bucket(micros: nat): (b: nat)
  {
    if micros <= 1 then 0
    else if micros >= 0x8000_0000 then HISTOGRAM_BUCKETS - 1
    else Log2Floor(micros)
  }

  lemma {:induction false} Log2Bounds(x: nat)
    requires x > 0
    ensures Pow2(Log2Floor(x)) <= x < Pow2(Log2Floor(x) + 1)
  {
    if x >= 2 {
      Log2Bounds(x / 2);
    }
  }

  lemma {:induction false} Log2Unique(x: nat, k: nat)
    requires Pow2(k) <= x < Pow2(k + 1)
    ensures Log2Floor(x) == k
    decreases k
  {
    if k > 0 {
      assert Pow2(k) == 2 * Pow2(k - 1);
      Log2Unique(x / 2, k - 1);
    }
  }

  /** A right shift by `k` lowers the logarithm by `k`. */
  lemma {:induction false} Log2Shift(x: nat, k: nat)
    requires x >= Pow2(k)
    ensures Log2Floor(x) == k + Log2Floor(x / Pow2(k))
    decreases k
  {
    if k > 0 {
      var n := Pow2(k - 1);
      assert x / 2 >= n;
      Log2Shift(x / 2, k - 1);
      HalveThenDivide(x, n);
    }
  }

  lemma HalveThenDivide(x: nat, n: nat)
    requires n > 0
    ensures (x / 2) / n == x / (2 * n)
  {
    var h := x / 2;
    var q, r := h / n, h % n;
    assert x == q * (2 * n) + (2 * r + x % 2) by {
      assert h == q * n + r && x == 2 * h + x % 2;
    }
    RemainderUnique(x, 2 * n, q, 2 * r + x % 2);
  }

  lemma SmallPowers()
    ensures Pow2(1) == 2 && Pow2(2) == 4 && Pow2(4) == 16 && Pow2(8) == 256 && Pow2(16) == 65536
    ensures Pow2(31) == 0x8000_0000 && Pow2(32) == 0x1_0000_0000
  {
    Pow2At32();
    assert Pow2(2) == 4 && Pow2(4) == 16;
    Pow2Sum(4, 4);
    Pow2Sum(8, 8);
    assert Pow2(32) == 2 * Pow2(31);
  }

  lemma BucketBounds(m: nat)
    ensures var b := Bucket(m);
      && b < HISTOGRAM_BUCKETS
      && (b == 0 ==> m <= 1)
      && (b > 0 ==> Pow2(b) <= m)
      && (0 < b < HISTOGRAM_BUCKETS - 1 ==> m < Pow2(b + 1))
  {
    SmallPowers();
    if 1 < m < 0x8000_0000 {
      Log2Bounds(m);
      if Log2Floor(m) >= 31 {
        Pow2Monotone(31, Log2Floor(m));
      }
    }
  }

  lemma BucketMonotone(m: nat, m': nat)
    requires m <= m'
    ensures Bucket(m) <= Bucket(m')
  {
    BucketBounds(m);
    BucketBounds(m');
    if Bucket(m') < Bucket(m) {
      Pow2Monotone(Bucket(m') + 1, Bucket(m));
      assert false;
    }
  }

  /** The shift cascade of the kernel program. */
  method LatencyBucket(latencyNs: nat) returns (bucket: nat)
    ensures bucket == Bucket(latencyNs / 1000)
    ensures bucket < HISTOGRAM_BUCKETS
  {
    hide Log2Floor;
    var micros := latencyNs / 1000;
    BucketBounds(micros);
    if micros <= 1 {
      return 0;
    }
    if micros >= 0x8000_0000 {
      return HISTOGRAM_BUCKETS - 1;
    }
    ghost var goal := Log2Floor(micros);
    bucket := 0;
    if micros >= 65536 {
      ShiftBy(micros, 16, 65536);
      micros := micros / 65536;
      bucket := bucket + 16;
    }
    assert bucket + Log2Floor(micros) == goal && micros < 65536;
    if micros >= 256 {
      ShiftBy(micros, 8, 256);
      micros := micros / 256;
      bucket := bucket + 8;
    }
    assert bucket + Log2Floor(micros) == goal && micros < 256;
    if micros >= 16 {
      ShiftBy(micros, 4, 16);
      micros := micros / 16;
      bucket := bucket + 4;
    }
    assert bucket + Log2Floor(micros) == goal && micros < 16;
    if micros >= 4 {
      ShiftBy(micros, 2, 4);
      micros := micros / 4;
      bucket := bucket + 2;
    }
    assert bucket + Log2Floor(micros) == goal && 0 < micros < 4;
    Log2Small(micros);
    if micros >= 2 {
      bucket := bucket + 1;
    }
  }

  lemma Log2Small(x: nat)
    requires 0 < x < 4
    ensures Log2Floor(x) == if x >= 2 then 1 else 0
  {
  }

  lemma ShiftBy(x: nat, k: nat, d: nat)
    requires (k == 16 && d == 65536) || (k == 8 && d == 256) || (k == 4 && d == 16) || (k == 2 && d == 4)
    requires x >= d
    ensures Log2Floor(x) == k + Log2Floor(x / d)
  {
    SmallPowers();
    Log2Shift(x, k);
  }

  // -------------------------------------------------------------- histogram

  function CountBucket(l: seq<nat>, b: nat): nat {
    if l == [] then 0
    else CountBucket(l[..|l| - 1], b) + (if Bucket(l[|l| - 1]) == b then 1 else 0)
  }

  /** The histogram of a list of whole-microsecond latencies. */
  function Histogram(l: seq<nat>): (h: seq<nat>)
    ensures |h| == HISTOGRAM_BUCKETS
  {
    seq(HISTOGRAM_BUCKETS, b requires 0 <= b => CountBucket(l, b))
  }

  function Sum(h: seq<nat>): nat {
    if h == [] then 0 else Sum(h[..|h| - 1]) + h[|h| - 1]
  }

  /** Counting one more latency. */
  function Bump(h: seq<nat>, b: nat): seq<nat> {
    if b < |h| then h[b := h[b] + 1] else h
  }

  lemma HistogramAppend(l: seq<nat>, m: nat)
    requires Bucket(m) < HISTOGRAM_BUCKETS
    ensures Histogram(l + [m]) == Bump(Histogram(l), Bucket(m))
  {
    assert (l + [m])[..|l|] == l;
  }

  lemma {:induction false} CountConcat(a: seq<nat>, c: seq<nat>, b: nat)
    ensures CountBucket(a + c, b) == CountBucket(a, b) + CountBucket(c, b)
    decreases |c|
  {
    if c == [] {
      assert a + c == a;
    } else {
      assert (a + c)[..|a + c| - 1] == a + c[..|c| - 1];
      CountConcat(a, c[..|c| - 1], b);
    }
  }

  /** Elements whose bucket is below `b`. */
  function CountBelow(l: seq<nat>, b: nat): nat {
    if l == [] then 0
    else CountBelow(l[..|l| - 1], b) + (if Bucket(l[|l| - 1]) < b then 1 else 0)
  }

  lemma {:induction false} BelowStep(l: seq<nat>, b: nat)
    ensures CountBelow(l, b + 1) == CountBelow(l, b) + CountBucket(l, b)
  {
    if l != [] {
      BelowStep(l[..|l| - 1], b);
    }
  }

  lemma {:induction false} PrefixSum(l: seq<nat>, b: nat)
    requires b <= HISTOGRAM_BUCKETS
    ensures Sum(Histogram(l)[..b]) == CountBelow(l, b)
  {
    if b == 0 {
      BelowZero(l);
    } else {
      PrefixSum(l, b - 1);
      BelowStep(l, b - 1);
      assert Histogram(l)[..b][..b - 1] == Histogram(l)[..b - 1];
    }
  }

  lemma {:induction false} BelowZero(l: seq<nat>)
    ensures CountBelow(l, 0) == 0 && CountBelow(l, HISTOGRAM_BUCKETS) == |l|
  {
    if l != [] {
      BelowZero(l[..|l| - 1]);
      BucketBounds(l[|l| - 1]);
    }
  }

  /** Every latency is in exactly one bucket. */
  lemma HistogramTotal(l: seq<nat>)
    ensures Sum(Histogram(l)) == |l|
  {
    PrefixSum(l, HISTOGRAM_BUCKETS);
    BelowZero(l);
    assert Histogram(l)[..HISTOGRAM_BUCKETS] == Histogram(l);
  }

  // ------------------------------------------------------------- percentile

  function CountLe(l: seq<nat>, x: nat): nat {
    if l == [] then 0
    else CountLe(l[..|l| - 1], x) + (if l[|l| - 1] <= x then 1 else 0)
  }

  /** The nearest-rank quantile: the smallest value that at least `r` of the
      latencies do not exceed. */
  predicate IsRank(l: seq<nat>, r: nat, x: nat) {
    CountLe(l, x) >= r && (x > 0 ==> CountLe(l, x - 1) < r)
  }

  lemma {:induction false} CountLeGrows(l: seq<nat>, x: nat, y: nat)
    requires x <= y
    ensures CountLe(l, x) <= CountLe(l, y) <= |l|
    ensures CountLe(l, x) < CountLe(l, y) ==> exists i :: 0 <= i < |l| && x < l[i] <= y
    decreases |l|
  {
    if l != [] {
      var init := l[..|l| - 1];
      CountLeGrows(init, x, y);
      if CountLe(init, x) < CountLe(init, y) {
        var i :| 0 <= i < |init| && x < init[i] <= y;
        assert l[i] == init[i];
      } else if CountLe(l, x) < CountLe(l, y) {
        assert x < l[|l| - 1] <= y;
      }
    }
  }

  lemma {:induction false} CountZero(l: seq<nat>)
    requires CountLe(l, 0) > 0
    ensures 0 in l
    decreases |l|
  {
    if l[|l| - 1] != 0 {
      CountZero(l[..|l| - 1]);
    }
  }

  lemma {:induction false} CountAll(l: seq<nat>) returns (top: nat)
    ensures CountLe(l, top) == |l|
    decreases |l|
  {
    if l == [] {
      top := 0;
    } else {
      var init := l[..|l| - 1];
      var t := CountAll(init);
      top := if t < l[|l| - 1] then l[|l| - 1] else t;
      CountLeGrows(init, t, top);
    }
  }

  lemma {:induction false} RankBelow(l: seq<nat>, r: nat, top: nat) returns (x: nat)
    requires CountLe(l, top) >= r
    ensures IsRank(l, r, x)
    decreases top
  {
    if top == 0 || CountLe(l, top - 1) < r {
      x := top;
    } else {
      x := RankBelow(l, r, top - 1);
    }
  }

  /** Every rank has its quantile: one value of the list, and only one. */
  lemma RankExists(l: seq<nat>, r: nat) returns (x: nat)
    requires 1 <= r <= |l|
    ensures IsRank(l, r, x) && x in l
    ensures forall y: nat | IsRank(l, r, y) :: y == x
  {
    var top := CountAll(l);
    x := RankBelow(l, r, top);
    if x == 0 {
      CountZero(l);
    } else {
      CountLeGrows(l, x - 1, x);
      var i :| 0 <= i < |l| && x - 1 < l[i] <= x;
      assert l[i] == x;
    }
    forall y: nat | IsRank(l, r, y) ensures y == x {
      if y < x {
        CountLeGrows(l, y, x - 1);
      } else if x < y {
        CountLeGrows(l, x, y - 1);
      }
    }
  }

  function CeilDiv(a: nat, d: nat): nat
    requires d > 0
  {
    (a + d - 1) / d
  }

  lemma {:induction false} BelowAtMost(l: seq<nat>, b: nat, x: nat)
    requires b <= Bucket(x)
    ensures CountBelow(l, b) <= if x == 0 then 0 else CountLe(l, x - 1)
  {
    if l != [] {
      BelowAtMost(l[..|l| - 1], b, x);
      if l[|l| - 1] >= x {
        BucketMonotone(x, l[|l| - 1]);
      }
    }
  }

  lemma {:induction false} BelowAtLeast(l: seq<nat>, x: nat)
    ensures CountBelow(l, Bucket(x) + 1) >= CountLe(l, x)
  {
    if l != [] {
      BelowAtLeast(l[..|l| - 1], x);
      if l[|l| - 1] <= x {
        BucketMonotone(l[|l| - 1], x);
      }
    }
  }

  /** The bucket the scan stops in is the bucket of the true quantile. */
  lemma ScanStopsAtRank(l: seq<nat>, r: nat, x: nat, b: nat)
    requires 1 <= r && IsRank(l, r, x) && b < HISTOGRAM_BUCKETS
    requires Sum(Histogram(l)[..b]) < r <= Sum(Histogram(l)[..b + 1])
    ensures b == Bucket(x)
  {
    PrefixSum(l, b);
    PrefixSum(l, b + 1);
    if b < Bucket(x) {
      BelowAtMost(l, b + 1, x);
      assert false;
    }
    if Bucket(x) < b {
      BelowAtLeast(l, x);
      BelowMonotone(l, Bucket(x) + 1, b);
      assert false;
    }
  }

  lemma {:induction false} BelowMonotone(l: seq<nat>, b: nat, c: nat)
    requires b <= c
    ensures CountBelow(l, b) <= CountBelow(l, c)
  {
    if l != [] {
      BelowMonotone(l[..|l| - 1], b, c);
    }
  }

  /** Upper edge of a bucket, in microseconds. */
  function Edge(b: nat): nat {
    if b == 0 then 1 else Pow2(Min(b + 1, 32))
  }

  /** What the percentile of a histogram says about the latencies behind it:
      it is never below the true quantile unless that is past the last edge,
      and at most twice it once that is two microseconds or more. */
  predicate BracketsQuantile(value: int, x: nat) {
    (x < 0x1_0000_0000 ==> x <= value) && (x >= 2 ==> value <= 2 * x)
  }

  lemma EdgeBrackets(x: nat)
    ensures BracketsQuantile(Edge(Bucket(x)), x)
  {
    SmallPowers();
    BucketBounds(x);
  }

  lemma {:induction false} SumPrefix(h: seq<nat>, b: nat)
    requires b <= |h|
    ensures Sum(h[..b]) <= Sum(h)
    decreases |h| - b
  {
    if b == |h| {
      assert h[..b] == h;
    } else {
      SumPrefix(h, b + 1);
      assert h[..b + 1][..b] == h[..b];
    }
  }

  /** The scan over the buckets, for the quantile `num / den`. */
  method HistogramPercentile(histogram: seq<nat>, num: nat, den: nat) returns (value: int, ghost bucket: nat)
    requires |histogram| == HISTOGRAM_BUCKETS && 0 < num <= den
    ensures Sum(histogram) == 0 ==> value == 0
    ensures Sum(histogram) > 0 ==>
      var target := CeilDiv(Sum(histogram) * num, den);
      && bucket < HISTOGRAM_BUCKETS && value == Edge(bucket) && 1 <= target
      && Sum(histogram[..bucket]) < target <= Sum(histogram[..bucket + 1])
  {
    bucket := 0;
    var total := 0;
    for i := 0 to HISTOGRAM_BUCKETS
      invariant total == Sum(histogram[..i])
    {
      assert histogram[..i + 1][..i] == histogram[..i];
      total := total + histogram[i];
    }
    assert histogram[..HISTOGRAM_BUCKETS] == histogram;
    if total == 0 {
      return 0, 0;
    }
    var target := CeilDiv(total * num, den);
    TargetInRange(total, num, den);
    var cumulative := 0;
    for b := 0 to HISTOGRAM_BUCKETS
      invariant cumulative == Sum(histogram[..b]) < target
    {
      assert histogram[..b + 1][..b] == histogram[..b];
      cumulative := cumulative + histogram[b];
      if cumulative >= target {
        return (if b == 0 then 1 else Pow2(Min(b + 1, 32))), b;
      }
    }
    assert false;
    value := 0x1_0000_0000;
  }

  lemma TargetInRange(total: nat, num: nat, den: nat)
    requires 0 < total && 0 < num <= den
    ensures 1 <= CeilDiv(total * num, den) <= total
  {
    var y := total * num + den - 1;
    ProductBounds(total, num, den);
    QuotientBounds(y, den);
    assert (total + 1) * den == total * den + den;
    SmallerFactor(y / den, total + 1, den);
    SmallerFactor(0, y / den + 1, den);
    if y / den == 0 {
      assert false;
    }
  }

  lemma ProductBounds(total: nat, num: nat, den: nat)
    requires 0 < total && 0 < num <= den
    ensures 1 <= total * num <= total * den
  {
  }

  lemma QuotientBounds(y: nat, den: nat)
    requires 0 < den
    ensures (y / den) * den <= y < (y / den + 1) * den
  {
    assert y == (y / den) * den + y % den;
  }

  lemma SmallerFactor(t: nat, u: nat, den: nat)
    requires 0 < den && t * den < u * den
    ensures t < u
  {
  }

  /** The percentile computed from the histogram of a list of latencies
      brackets the nearest-rank quantile of that list, which is one of them. */
  method PercentileOf(ghost latencies: seq<nat>, histogram: seq<nat>, num: nat, den: nat) returns (value: int)
    requires 0 < num <= den && histogram == Histogram(latencies)
    ensures latencies == [] ==> value == 0
    ensures latencies != [] ==> Quantile(latencies, num, den, value)
  {
    ghost var bucket: nat;
    HistogramTotal(latencies);
    value, bucket := HistogramPercentile(histogram, num, den);
    if latencies != [] {
      TargetInRange(|latencies|, num, den);
      ghost var x := RankExists(latencies, CeilDiv(|latencies| * num, den));
      ScanStopsAtRank(latencies, CeilDiv(|latencies| * num, den), x, bucket);
      EdgeBrackets(x);
    }
  }

  /** `value` brackets the quantile `num / den` of the list. */
  ghost predicate Quantile(l: seq<nat>, num: nat, den: nat, value: int)
    requires den > 0
  {
    exists x :: x in l && IsRank(l, CeilDiv(|l| * num, den), x) && BracketsQuantile(value, x)
  }
}
