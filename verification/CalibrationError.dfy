/** The mean distance between predicted and observed frequency, over the reliability bins. */
module CalibrationError {
  import opened IsotonicCalibration
  import opened CalibrationMetrics
  import opened OnlineState

  function Abs(x: real): real {
    if x < 0.0 then -x else x
  }

  /** Bins with fewer observations than `least` are left out, empty ones always. */
  predicate Counted(t: Bucket, least: nat) {
    t.count >= least && t.count > 0
  }

  function Gap(t: Bucket): real
    requires t.count > 0
  {
    t.count as real * Abs(t.sumPredicted / t.count as real - t.sumActual as real / t.count as real)
  }

  function Gaps(ts: seq<Bucket>, least: nat): real {
    if ts == [] then 0.0
    else
      var t := ts[|ts| - 1];
      Gaps(ts[..|ts| - 1], least) + (if Counted(t, least) then Gap(t) else 0.0)
  }

  function Total(ts: seq<Bucket>, least: nat): nat {
    if ts == [] then 0
    else
      var t := ts[|ts| - 1];
      Total(ts[..|ts| - 1], least) + (if Counted(t, least) then t.count else 0)
  }

  function MeanGap(ts: seq<Bucket>, least: nat, none: real): real {
    if Total(ts, least) > 0 then Gaps(ts, least) / Total(ts, least) as real else none
  }

  /** What the error needs of the bins of a batch. */
  function BucketsOf(bins: seq<Bin>): (ts: seq<Bucket>)
    ensures |ts| == |bins|
  {
    seq(|bins|, i requires 0 <= i < |bins| => Bucket(bins[i].sumPredicted, bins[i].sumActual, bins[i].count))
  }

  method ExpectedCalibrationError(bins: seq<Bin>) returns (error: real)
    ensures error == MeanGap(BucketsOf(bins), 1, 0.0)
  {
    var total, ece := 0, 0.0;
    ghost var ts := BucketsOf(bins);
    for i := 0 to |bins|
      invariant total == Total(ts[..i], 1) && ece == Gaps(ts[..i], 1)
    {
      assert ts[..i + 1][..i] == ts[..i];
      var b := bins[i];
      if b.count != 0 {
        total := total + b.count;
        var conf, acc := b.sumPredicted / b.count as real, b.sumActual as real / b.count as real;
        ece := ece + b.count as real * Abs(conf - acc);
      }
    }
    assert ts[..|bins|] == ts;
    error := if total > 0 then ece / total as real else 0.0;
  }

  method OnlineMeanCalibrationError(s: Online) returns (error: real)
    ensures error == MeanGap(s.buckets, 3, 0.1)
  {
    var wErr, n := 0.0, 0;
    for i := 0 to |s.buckets|
      invariant n == Total(s.buckets[..i], 3) && wErr == Gaps(s.buckets[..i], 3)
    {
      assert s.buckets[..i + 1][..i] == s.buckets[..i];
      var b := s.buckets[i];
      if b.count >= 3 {
        var pred, act := b.sumPredicted / b.count as real, b.sumActual as real / b.count as real;
        wErr := wErr + b.count as real * Abs(pred - act);
        n := n + b.count;
      }
    }
    assert s.buckets[..|s.buckets|] == s.buckets;
    error := if n > 0 then wErr / n as real else 0.1;
  }

  // ---------------------------------------------------------------- what the error measures

  lemma {:induction false} Scaled(c: real, x: real, y: real, u: real, v: real)
    requires c > 0.0 && u == x / c && v == y / c
    ensures c * Abs(u - v) == Abs(x - y)
  {
    assert c * u == x && c * v == y;
    assert c * (u - v) == x - y;
    if u < v { assert c * (v - u) == y - x > 0.0; } else { assert c * (u - v) >= 0.0; }
  }

  /** A bin contributes the distance between its summed predictions and its hits. */
  lemma {:induction false} GapIsDistance(t: Bucket)
    requires t.count > 0
    ensures Gap(t) == Abs(t.sumPredicted - t.sumActual as real)
  {
    Scaled(t.count as real, t.sumPredicted, t.sumActual as real, t.sumPredicted / t.count as real, t.sumActual as real / t.count as real);
  }

  function Predicted(ts: seq<Bucket>): real {
    if ts == [] then 0.0 else Predicted(ts[..|ts| - 1]) + ts[|ts| - 1].sumPredicted
  }

  function Actual(ts: seq<Bucket>): int {
    if ts == [] then 0 else Actual(ts[..|ts| - 1]) + ts[|ts| - 1].sumActual
  }

  /** Sums of that many probabilities and outcomes. */
  predicate Sane(t: Bucket) {
    0.0 <= t.sumPredicted <= t.count as real && 0 <= t.sumActual <= t.count
  }

  predicate AllSane(ts: seq<Bucket>) {
    ts == [] || (Sane(ts[|ts| - 1]) && AllSane(ts[..|ts| - 1]))
  }

  lemma {:induction false} GapsAreBounded(ts: seq<Bucket>, least: nat)
    requires AllSane(ts)
    ensures 0.0 <= Gaps(ts, least) <= Total(ts, least) as real
  {
    if ts != [] {
      GapsAreBounded(ts[..|ts| - 1], least);
      if ts[|ts| - 1].count > 0 { GapIsDistance(ts[|ts| - 1]); }
    }
  }

  lemma {:induction false} Quotient(x: real, n: real)
    requires n > 0.0
    ensures 0.0 <= x <= n ==> 0.0 <= x / n <= 1.0
    ensures (x / n) * n == x
  {}

  /** A mean gap over sums of probabilities and outcomes lies between 0 and 1. */
  lemma {:induction false} MeanGapIsBounded(ts: seq<Bucket>, least: nat, none: real)
    requires AllSane(ts) && 0.0 <= none <= 1.0
    ensures 0.0 <= MeanGap(ts, least, none) <= 1.0
  {
    GapsAreBounded(ts, least);
    if Total(ts, least) > 0 { Quotient(Gaps(ts, least), Total(ts, least) as real); }
  }

  /** The summed gaps are at least the overall bias, and vanish exactly when every bin predicts as many hits as it has. */
  lemma {:induction false} GapsCoverTheBias(ts: seq<Bucket>)
    requires AllSane(ts)
    ensures Gaps(ts, 1) >= Abs(Predicted(ts) - Actual(ts) as real)
    ensures Gaps(ts, 1) == 0.0 <==> forall i :: 0 <= i < |ts| ==> ts[i].sumPredicted == ts[i].sumActual as real
  {
    if ts != [] {
      var front, t := ts[..|ts| - 1], ts[|ts| - 1];
      GapsCoverTheBias(front);
      GapsAreBounded(front, 1);
      if t.count > 0 { GapIsDistance(t); }
      assert forall i :: 0 <= i < |front| ==> front[i] == ts[i];
      assert (forall i :: 0 <= i < |ts| ==> ts[i].sumPredicted == ts[i].sumActual as real)
        <==> (forall i :: 0 <= i < |front| ==> front[i].sumPredicted == front[i].sumActual as real)
             && t.sumPredicted == t.sumActual as real;
    }
  }

  // ---------------------------------------------------------------- over a batch of observations

  lemma {:induction false} BucketUpdate(ts: seq<Bucket>, k: nat, t: Bucket)
    requires k < |ts| && AllSane(ts) && Sane(t)
    ensures var after := ts[k := t];
      && AllSane(after)
      && Predicted(after) == Predicted(ts) - ts[k].sumPredicted + t.sumPredicted
      && Actual(after) == Actual(ts) - ts[k].sumActual + t.sumActual
      && Total(after, 1) == Total(ts, 1) - ts[k].count + t.count
    decreases |ts|
  {
    var n := |ts| - 1;
    if k == n {
      assert ts[k := t][..n] == ts[..n];
    } else {
      assert ts[k := t][..n] == ts[..n][k := t];
      BucketUpdate(ts[..n], k, t);
    }
  }

  lemma {:induction false} ZeroBuckets(ts: seq<Bucket>)
    requires forall i :: 0 <= i < |ts| ==> ts[i] == Bucket(0.0, 0, 0)
    ensures AllSane(ts) && Predicted(ts) == 0.0 && Actual(ts) == 0 && Total(ts, 1) == 0
  {
    if ts != [] { ZeroBuckets(ts[..|ts| - 1]); }
  }

  lemma {:induction false} SaneAt(ts: seq<Bucket>, k: nat)
    requires AllSane(ts) && k < |ts|
    ensures Sane(ts[k])
  {
    if k < |ts| - 1 { SaneAt(ts[..|ts| - 1], k); }
  }

  lemma {:induction false} BatchBuckets(s: seq<Pair>)
    ensures var ts := BucketsOf(BinsOver(s));
      && AllSane(ts) && Total(ts, 1) == |s| && Predicted(ts) == SumP(s) && Actual(ts) == SumY(s)
  {
    if s == [] {
      ZeroBuckets(BucketsOf(EmptyBins()));
    } else {
      var front, last := s[..|s| - 1], s[|s| - 1];
      BatchBuckets(front);
      var before, k := BucketsOf(BinsOver(front)), BinIndex(last.p);
      SaneAt(before, k);
      var t := Bucket(before[k].sumPredicted + Squash(last.p), before[k].sumActual + last.y, before[k].count + 1);
      BucketUpdate(before, k, t);
      assert BucketsOf(BinsOver(s)) == before[k := t];
    }
  }

  lemma {:induction false} QuotientCovers(sum: real, n: real, bias: real, q: real)
    requires n > 0.0 && q == sum / n && 0.0 <= bias <= sum <= n
    ensures 0.0 <= q <= 1.0 && bias <= q * n
  {
    Quotient(sum, n);
  }

  lemma {:induction false} SumCoversTheBias(ts: seq<Bucket>, n: nat, bias: real, sum: real)
    requires AllSane(ts) && Total(ts, 1) == n && bias == Abs(Predicted(ts) - Actual(ts) as real) && sum == Gaps(ts, 1)
    ensures 0.0 <= bias <= sum <= n as real
  {
    GapsCoverTheBias(ts);
    GapsAreBounded(ts, 1);
  }

  /** The error of the bins of any batch lies between 0 and 1 and is never below the batch's own mean bias: good bins cannot
      hide scores that are off on the whole. */
  lemma {:induction false} ErrorCoversTheBias(s: seq<Pair>, error: real)
    requires s != [] && error == MeanGap(BucketsOf(BinsOver(s)), 1, 0.0)
    ensures 0.0 <= error <= 1.0 && Abs(SumP(s) - SumY(s) as real) <= error * |s| as real
  {
    var ts, bias := BucketsOf(BinsOver(s)), Abs(SumP(s) - SumY(s) as real);
    BatchBuckets(s);
    SumCoversTheBias(ts, |s|, bias, Gaps(ts, 1));
    QuotientCovers(Gaps(ts, 1), |s| as real, bias, error);
  }

  /** The learner's error lies between 0 and 1 after every run of updates. */
  lemma {:induction false} OnlineErrorIsBounded(s: Online, w: Windows)
    requires Healthy(s, w)
    ensures 0.0 <= MeanGap(s.buckets, 3, 0.1) <= 1.0
  {
    forall k | 0 <= k < |s.buckets| ensures Sane(s.buckets[k]) {
      assert BucketInRange(s.buckets[k], k);
      TenthIsSane(k, s.buckets[k].count, s.buckets[k].sumPredicted);
    }
    SaneEverywhere(s.buckets);
    MeanGapIsBounded(s.buckets, 3, 0.1);
  }

  lemma {:induction false} TenthIsSane(k: nat, n: nat, sum: real)
    requires k < BIN_COUNT && MeanInTenth(k, n, sum)
    ensures 0.0 <= sum <= n as real
  {
    assert k as real * n as real >= 0.0;
    assert (k + 1) as real * n as real <= 10.0 * n as real;
  }

  lemma {:induction false} SaneEverywhere(ts: seq<Bucket>)
    requires forall k :: 0 <= k < |ts| ==> Sane(ts[k])
    ensures AllSane(ts)
  {
    if ts != [] { SaneEverywhere(ts[..|ts| - 1]); }
  }

  // ---------------------------------------------------------------- the error told without the loop

  /** The buckets with that many observations or more. */
  function Filled(ts: seq<Bucket>, least: nat): seq<Bucket> {
    if ts == [] then []
    else Filled(ts[..|ts| - 1], least) + (if ts[|ts| - 1].count >= least then [ts[|ts| - 1]] else [])
  }

  /** How far predictions and hits are apart, bin by bin. */
  function Distances(ts: seq<Bucket>): real {
    if ts == [] then 0.0
    else Distances(ts[..|ts| - 1]) + Abs(ts[|ts| - 1].sumPredicted - ts[|ts| - 1].sumActual as real)
  }

  function Observations(ts: seq<Bucket>): nat {
    if ts == [] then 0 else Observations(ts[..|ts| - 1]) + ts[|ts| - 1].count
  }

  lemma {:induction false} FilledOnesCount(ts: seq<Bucket>, least: nat)
    requires least > 0
    ensures Gaps(ts, least) == Distances(Filled(ts, least)) && Total(ts, least) == Observations(Filled(ts, least))
    ensures Observations(Filled(ts, least)) > 0 <==> Filled(ts, least) != []
  {
    if ts != [] {
      var front, t := Filled(ts[..|ts| - 1], least), ts[|ts| - 1];
      FilledOnesCount(ts[..|ts| - 1], least);
      if t.count >= least {
        GapIsDistance(t);
        assert (front + [t])[..|front|] == front;
      } else {
        assert front + [] == front;
      }
    }
  }

  /** `error` is the mean distance between predictions and hits over the buckets, `none` without any. */
  predicate IsMeanDistance(error: real, ts: seq<Bucket>, none: real) {
    if ts == [] then error == none else error * Observations(ts) as real == Distances(ts)
  }

  lemma {:induction false} MeanIsQuotient(error: real, ts: seq<Bucket>, none: real, sum: real, n: nat)
    requires sum == Distances(ts) && n == Observations(ts) && (n > 0 <==> ts != [])
    requires error == if n > 0 then sum / n as real else none
    ensures IsMeanDistance(error, ts, none)
  {
    if n > 0 { Quotient(sum, n as real); }
  }

  lemma {:induction false} ErrorIsMeanDistance(ts: seq<Bucket>, least: nat, none: real)
    requires least > 0
    ensures IsMeanDistance(MeanGap(ts, least, none), Filled(ts, least), none)
  {
    FilledOnesCount(ts, least);
    MeanIsQuotient(MeanGap(ts, least, none), Filled(ts, least), none, Gaps(ts, least), Total(ts, least));
  }

  /** The online error is the mean distance between predictions and hits over the buckets with three observations or more,
      0.1 if there is none; that of a batch is the one over its bins that are not empty, 0 if there is none. */
  lemma {:induction false} ErrorsAreMeanDistances(s: Online, batch: seq<Pair>)
    ensures IsMeanDistance(MeanGap(s.buckets, 3, 0.1), Filled(s.buckets, 3), 0.1)
    ensures var bins := BucketsOf(BinsOver(batch)); IsMeanDistance(MeanGap(bins, 1, 0.0), Filled(bins, 1), 0.0)
  {
    ErrorIsMeanDistance(s.buckets, 3, 0.1);
    ErrorIsMeanDistance(BucketsOf(BinsOver(batch)), 1, 0.0);
  }
}
