/** The adaptive state updated after every crash: ensemble weights, calibration buckets, error windows, streaks. */
module OnlineState {
  import opened CalibrationMetrics

  datatype Bucket = Bucket(sumPredicted: real, sumActual: int, count: nat)

  datatype Online = Online(
    observationCount: nat,
    weights: seq<real>,           // one per model, in the order of the model names
    buckets: seq<Bucket>,         // by tenths of the predicted probability
    recentErrors: seq<real>,
    longErrors: seq<real>,
    consecutiveBelow: nat,
    consecutiveAbove: nat)

  /** One update; `scores[i]` is `exp(-4 * error^2)` of model `i`, a number in (0, 1]. */
  datatype Update = Update(crashPoint: real, psi: real, scores: seq<real>)

  datatype Windows = Windows(short: int, long: int)

  const MODELS := 7
  const TARGET: real := 1.3
  const W_FLOOR: real := 0.06
  const W_CEIL: real := 0.32
  const KEEP: real := 0.88

  predicate Scores(s: seq<real>) {
    |s| == MODELS && forall i :: 0 <= i < MODELS ==> 0.0 < s[i] <= 1.0
  }

  function Initial(): Online {
    Online(0, seq(MODELS, _ => 1.0 / 7.0), seq(BIN_COUNT, _ => Bucket(0.0, 0, 0)), [], [], 0, 0)
  }

  function ClampPsi(p: real): (r: real)
    ensures 0.01 <= r <= 0.99
  {
    var capped := if p < 0.99 then p else 0.99;
    if capped > 0.01 then capped else 0.01
  }

  // ---------------------------------------------------------------- the ensemble weights

  function Sum(s: seq<real>): real {
    if s == [] then 0.0 else Sum(s[..|s| - 1]) + s[|s| - 1]
  }

  /** Shrink by at most twelve per cent, the less the better the score, then clamp. */
  function Adapted(weight: real, score: real): (w: real)
    ensures W_FLOOR <= w <= W_CEIL
  {
    var w := weight * (0.88 + 0.12 * score);
    if w < W_FLOOR then W_FLOOR else if w > W_CEIL then W_CEIL else w
  }

  function AllAdapted(weights: seq<real>, scores: seq<real>): (ws: seq<real>)
    requires |weights| == |scores|
    ensures |ws| == |weights| && forall i :: 0 <= i < |ws| ==> ws[i] == Adapted(weights[i], scores[i])
  {
    seq(|weights|, i requires 0 <= i < |weights| => Adapted(weights[i], scores[i]))
  }

  function Scaled(ws: seq<real>, total: real): (r: seq<real>)
    requires total != 0.0
    ensures |r| == |ws| && forall i :: 0 <= i < |ws| ==> r[i] == ws[i] / total
  {
    seq(|ws|, i requires 0 <= i < |ws| => ws[i] / total)
  }

  function NextWeights(weights: seq<real>, scores: seq<real>): seq<real>
    requires |weights| == |scores|
  {
    var ws := AllAdapted(weights, scores);
    if Sum(ws) > 0.0 then Scaled(ws, Sum(ws)) else ws
  }

  /** The source's two loops over the model names. */
  method AdaptWeights(weights: seq<real>, scores: seq<real>) returns (next: seq<real>)
    requires |weights| == |scores|
    ensures next == NextWeights(weights, scores)
  {
    ghost var ws := AllAdapted(weights, scores);
    next := weights;
    var weightSum := 0.0;
    for i := 0 to |weights|
      invariant |next| == |weights| && next[..i] == ws[..i] && weightSum == Sum(ws[..i])
    {
      var w := weights[i] * (0.88 + 0.12 * scores[i]);
      w := if w < W_FLOOR then W_FLOOR else if w > W_CEIL then W_CEIL else w;
      next := next[i := w];
      weightSum := weightSum + w;
      assert ws[..i + 1][..i] == ws[..i];
    }
    assert ws[..|weights|] == ws && next == ws;
    if weightSum > 0.0 {
      for i := 0 to |weights|
        invariant |next| == |weights|
        invariant next[..i] == Scaled(ws, weightSum)[..i] && next[i..] == ws[i..]
      {
        assert next[i] == next[i..][0] == ws[i];
        next := next[i := next[i] / weightSum];
      }
    }
  }

  lemma {:induction false} OneMore(x: real, n: real)
    ensures x * (n + 1.0) == x * n + x
  {}

  lemma {:induction false} ProductSign(x: real, y: real)
    requires x >= 0.0 && y >= 0.0
    ensures x * y >= 0.0
  {}

  lemma {:induction false} SumBetween(s: seq<real>, lo: real, hi: real)
    requires forall i :: 0 <= i < |s| ==> lo <= s[i] <= hi
    ensures lo * |s| as real <= Sum(s) <= hi * |s| as real
  {
    if s != [] {
      SumBetween(s[..|s| - 1], lo, hi);
      OneMore(lo, (|s| - 1) as real);
      OneMore(hi, (|s| - 1) as real);
    }
  }

  /** Pointwise bounds carry over to sums. */
  lemma {:induction false} SumBetweenSums(s: seq<real>, t: seq<real>, c: real)
    requires |s| == |t| && forall i :: 0 <= i < |s| ==> c * t[i] <= s[i] <= t[i]
    ensures c * Sum(t) <= Sum(s) <= Sum(t)
  {
    if s != [] {
      var n := |s| - 1;
      SumBetweenSums(s[..n], t[..n], c);
      assert c * Sum(t) == c * Sum(t[..n]) + c * t[n];
    }
  }

  /** The list without its element `i`. */
  function Others(s: seq<real>, i: nat): (r: seq<real>)
    requires i < |s|
    ensures |r| == |s| - 1
    ensures forall k :: 0 <= k < |r| ==> r[k] == s[if k < i then k else k + 1]
  {
    s[..i] + s[i + 1..]
  }

  lemma {:induction false} SumSplit(s: seq<real>, i: nat)
    requires i < |s|
    ensures Sum(s) == s[i] + Sum(Others(s, i))
  {
    var n := |s| - 1;
    if i == n {
      assert Others(s, i) == s[..n];
    } else {
      SumSplit(s[..n], i);
      var rest := Others(s, i);
      assert rest[..|rest| - 1] == Others(s[..n], i);
      assert rest[|rest| - 1] == s[n];
    }
  }

  lemma {:induction false} SumScaled(ws: seq<real>, total: real)
    requires total > 0.0
    ensures Sum(Scaled(ws, total)) == Sum(ws) / total
  {
    if ws != [] {
      var n := |ws| - 1;
      assert Scaled(ws, total)[..n] == Scaled(ws[..n], total);
      SumScaled(ws[..n], total);
    }
  }

  lemma {:induction false} PositiveProduct(x: real, y: real)
    requires x > 0.0 && y > 0.0
    ensures x * y > 0.0
  {}

  lemma {:induction false} CancelFactor(a: real, b: real, s: real)
    requires s > 0.0
    ensures a * s <= b * s ==> a <= b
  {
    if a > b { PositiveProduct(a - b, s); }
  }

  lemma {:induction false} Quotient(w: real, s: real, lo: real, hi: real)
    requires s > 0.0 && lo * s <= w <= hi * s
    ensures lo <= w / s <= hi
  {
    var q := w / s;
    assert q * s == w;
    CancelFactor(lo, q, s);
    CancelFactor(q, hi, s);
  }

  /** From any weights whatever, one update yields a distribution with every weight in [1/33, 8/17]. */
  lemma {:induction false} AnyUpdateNormalises(weights: seq<real>, scores: seq<real>)
    requires |weights| == |scores| == MODELS
    ensures Sum(NextWeights(weights, scores)) == 1.0
    ensures forall i :: 0 <= i < MODELS ==> 1.0 / 33.0 <= NextWeights(weights, scores)[i] <= 8.0 / 17.0
  {
    var ws := AllAdapted(weights, scores);
    SumBetween(ws, W_FLOOR, W_CEIL);
    var total := Sum(ws);
    SumScaled(ws, total);
    assert total / total == 1.0;
    forall i | 0 <= i < MODELS ensures 1.0 / 33.0 <= ws[i] / total <= 8.0 / 17.0 {
      SumSplit(ws, i);
      SumBetween(Others(ws, i), W_FLOOR, W_CEIL);
      Quotient(ws[i], total, 1.0 / 33.0, 8.0 / 17.0);
    }
  }

  /** A distribution over the models that no update can push to an extreme. */
  ghost predicate Balanced(weights: seq<real>) {
    && |weights| == MODELS && Sum(weights) == 1.0
    && forall i :: 0 <= i < MODELS ==> W_FLOOR <= weights[i] <= 4.0 / 11.0
  }

  lemma {:induction false} ShrunkBy(weight: real, f: real, w: real)
    requires weight >= 0.0 && KEEP <= f <= 1.0 && w == weight * f
    ensures KEEP * weight <= w <= weight
  {
    ProductSign(weight, 1.0 - f);
    ProductSign(weight, f - KEEP);
  }

  lemma {:induction false} AdaptedShrinks(weight: real, score: real)
    requires W_FLOOR <= weight <= 4.0 / 11.0 && 0.0 < score <= 1.0
    ensures KEEP * weight <= Adapted(weight, score) <= weight
  {
    ShrunkBy(weight, 0.88 + 0.12 * score, weight * (0.88 + 0.12 * score));
  }

  /** Over every run the floor survives normalisation and no weight exceeds 4/11, the ceiling over the smallest total. */
  lemma {:induction false} WeightsStayBalanced(weights: seq<real>, scores: seq<real>)
    requires Balanced(weights) && Scores(scores)
    ensures Balanced(NextWeights(weights, scores))
  {
    var ws := AllAdapted(weights, scores);
    forall i | 0 <= i < MODELS ensures KEEP * weights[i] <= ws[i] <= weights[i] {
      AdaptedShrinks(weights[i], scores[i]);
    }
    SumBetweenSums(ws, weights, KEEP);
    var total := Sum(ws);
    AnyUpdateNormalises(weights, scores);
    forall i | 0 <= i < MODELS ensures W_FLOOR <= ws[i] / total <= 4.0 / 11.0 {
      Quotient(ws[i], total, W_FLOOR, 4.0 / 11.0);
    }
  }

  lemma {:induction false} QuotientsInOrder(a: real, b: real, s: real)
    requires a <= b && s > 0.0
    ensures a / s <= b / s
  {
    var p, q := a / s, b / s;
    assert p * s == a && q * s == b;
    CancelFactor(p, q, s);
  }

  lemma {:induction false} ProductsInOrder(a: real, b: real, f: real, g: real, af: real, bf: real, bg: real)
    requires 0.0 <= b <= a && 0.0 <= g <= f && af == a * f && bf == b * f && bg == b * g
    ensures bg <= bf <= af
  {
    ProductSign(a - b, f);
    ProductSign(b, f - g);
  }

  lemma {:induction false} AdaptedInOrder(a: real, b: real, f: real, g: real)
    requires 0.0 <= b <= a && 0.0 <= g <= f
    ensures Adapted(b, g) <= Adapted(a, f)
  {
    var p, q := 0.88 + 0.12 * f, 0.88 + 0.12 * g;
    ProductsInOrder(a, b, p, q, a * p, b * p, b * q);
  }

  /** Reward: a model with at least the weight and at least the score of another never falls behind it. */
  lemma {:induction false} BetterModelsStayAhead(weights: seq<real>, scores: seq<real>, i: nat, j: nat)
    requires Balanced(weights) && Scores(scores) && i < MODELS && j < MODELS
    requires weights[j] <= weights[i] && scores[j] <= scores[i]
    ensures NextWeights(weights, scores)[j] <= NextWeights(weights, scores)[i]
  {
    var ws := AllAdapted(weights, scores);
    AdaptedInOrder(weights[i], weights[j], scores[i], scores[j]);
    SumBetween(ws, W_FLOOR, W_CEIL);
    QuotientsInOrder(ws[j], ws[i], Sum(ws));
  }

  // ---------------------------------------------------------------- the whole update

  function Pushed(window: seq<real>, x: real, limit: int): seq<real> {
    var longer := window + [x];
    if |longer| > limit then longer[1..] else longer
  }

  function Bin(p: real): (k: nat)
    requires 0.0 <= p
    ensures k < BIN_COUNT
  {
    var k := (p * 10.0).Floor;
    if k < BIN_COUNT - 1 then k else BIN_COUNT - 1
  }

  function Square(x: real): real { x * x }

  function Updated(s: Online, u: Update, w: Windows): Online
    requires |s.weights| == |u.scores| && |s.buckets| == BIN_COUNT
  {
    var hit := u.crashPoint >= TARGET;
    var actual := if hit then 1 else 0;
    var p := ClampPsi(u.psi);
    var sq := Square(p - actual as real);
    var b := s.buckets[Bin(p)];
    Online(
      s.observationCount + 1,
      NextWeights(s.weights, u.scores),
      s.buckets[Bin(p) := Bucket(b.sumPredicted + p, b.sumActual + actual, b.count + 1)],
      Pushed(s.recentErrors, sq, w.short),
      Pushed(s.longErrors, sq, w.long),
      if hit then 0 else s.consecutiveBelow + 1,
      if hit then s.consecutiveAbove + 1 else 0)
  }

  method ApplyOnlineUpdate(s: Online, u: Update, w: Windows) returns (next: Online)
    requires |s.weights| == |u.scores| && |s.buckets| == BIN_COUNT
    ensures next == Updated(s, u, w)
  {
    var actual := if u.crashPoint >= TARGET then 1 else 0;
    var p := ClampPsi(u.psi);
    var residual := p - actual as real;
    var sq := Square(residual);
    next := s.(observationCount := s.observationCount + 1);
    if actual == 1 {
      next := next.(consecutiveAbove := s.consecutiveAbove + 1, consecutiveBelow := 0);
    } else {
      next := next.(consecutiveBelow := s.consecutiveBelow + 1, consecutiveAbove := 0);
    }
    var bin := Bin(p);
    var bucket := next.buckets[bin];
    next := next.(buckets := next.buckets[bin := Bucket(bucket.sumPredicted + p, bucket.sumActual + actual, bucket.count + 1)]);
    next := next.(recentErrors := next.recentErrors + [sq], longErrors := next.longErrors + [sq]);
    if |next.recentErrors| > w.short {
      next := next.(recentErrors := next.recentErrors[1..]);
    }
    if |next.longErrors| > w.long {
      next := next.(longErrors := next.longErrors[1..]);
    }
    var weights := AdaptWeights(s.weights, u.scores);
    next := next.(weights := weights);
  }

  function Counts(bs: seq<Bucket>): nat {
    if bs == [] then 0 else Counts(bs[..|bs| - 1]) + bs[|bs| - 1].count
  }

  lemma {:induction false} CountsUpdate(bs: seq<Bucket>, k: nat, b: Bucket)
    requires k < |bs|
    ensures Counts(bs[k := b]) == Counts(bs) - bs[k].count + b.count
  {
    var n := |bs| - 1;
    if k == n {
      assert bs[k := b][..n] == bs[..n];
    } else {
      assert bs[k := b][..n] == bs[..n][k := b];
      CountsUpdate(bs[..n], k, b);
    }
  }

  ghost predicate IsSuffix(s: seq<real>, whole: seq<real>) {
    |s| <= |whole| && s == whole[|whole| - |s|..]
  }

  /** The average prediction of a bucket lies in its tenth, and it has counted at most as many hits as updates. */
  predicate BucketInRange(b: Bucket, k: nat) {
    MeanInTenth(k, b.count, b.sumPredicted) && 0 <= b.sumActual <= b.count
  }

  ghost predicate BucketsInRange(bs: seq<Bucket>) {
    |bs| == BIN_COUNT && forall k :: 0 <= k < BIN_COUNT ==> BucketInRange(bs[k], k)
  }

  /** Both windows are full up to their limits, and the short one is the end of the long one. */
  ghost predicate WindowsInStep(short: seq<real>, long: seq<real>, n: nat, w: Windows) {
    IsSuffix(short, long) && |long| == Least(n, w.long) && |short| == Least(n, w.short)
  }

  /** What every run of updates keeps. */
  ghost predicate Healthy(s: Online, w: Windows) {
    && Balanced(s.weights)
    && BucketsInRange(s.buckets) && Counts(s.buckets) == s.observationCount
    && WindowsInStep(s.recentErrors, s.longErrors, s.observationCount, w)
    && (s.consecutiveBelow == 0 || s.consecutiveAbove == 0)
    && s.consecutiveBelow + s.consecutiveAbove <= s.observationCount
  }

  function Least(n: nat, limit: int): nat {
    if limit <= 0 then 0 else if n < limit then n else limit
  }

  lemma {:induction false} BucketsStayInRange(bs: seq<Bucket>, k: nat, p: real, actual: nat)
    requires BucketsInRange(bs) && k < BIN_COUNT && actual <= 1 && k as real <= p * 10.0 <= k as real + 1.0
    ensures var t := bs[k := Bucket(bs[k].sumPredicted + p, bs[k].sumActual + actual, bs[k].count + 1)];
      BucketsInRange(t) && Counts(t) == Counts(bs) + 1
  {
    var b := bs[k];
    assert BucketInRange(b, k);
    CountsUpdate(bs, k, Bucket(b.sumPredicted + p, b.sumActual + actual, b.count + 1));
    RangeStep(k, b.count, b.sumPredicted, p);
  }

  lemma {:induction false} PushedLength(window: seq<real>, x: real, n: nat, limit: int)
    requires |window| == Least(n, limit)
    ensures |Pushed(window, x, limit)| == Least(n + 1, limit)
  {}

  /** A suffix stays one when the front of the longer list, or of both, is cut off. */
  lemma {:induction false} CutsKeepSuffix(s: seq<real>, whole: seq<real>, i: nat, j: nat)
    requires IsSuffix(s, whole) && i <= |s| && j <= |whole| && |s| - i <= |whole| - j
    ensures IsSuffix(s[i..], whole[j..])
  {
    var at := |whole| - |s|;
    assert s[i..] == whole[at + i..];
    assert whole[j..][at + i - j..] == whole[at + i..];
  }

  lemma {:induction false} AppendKeepsSuffix(s: seq<real>, whole: seq<real>, x: real)
    requires IsSuffix(s, whole)
    ensures IsSuffix(s + [x], whole + [x])
  {
    var at := |whole| - |s|;
    assert (whole + [x])[at..] == whole[at..] + [x];
  }

  lemma {:induction false} PushKeepsStep(short: seq<real>, long: seq<real>, x: real, n: nat, w: Windows)
    requires WindowsInStep(short, long, n, w) && w.short <= w.long
    ensures WindowsInStep(Pushed(short, x, w.short), Pushed(long, x, w.long), n + 1, w)
  {
    PushedLength(short, x, n, w.short);
    PushedLength(long, x, n, w.long);
    AppendKeepsSuffix(short, long, x);
    var i, j := if |short| + 1 > w.short then 1 else 0, if |long| + 1 > w.long then 1 else 0;
    assert Pushed(short, x, w.short) == (short + [x])[i..] && Pushed(long, x, w.long) == (long + [x])[j..];
    CutsKeepSuffix(short + [x], long + [x], i, j);
  }

  lemma {:induction false} UpdateKeepsHealth(s: Online, u: Update, w: Windows)
    requires Healthy(s, w) && Scores(u.scores) && w.short <= w.long
    ensures Healthy(Updated(s, u, w), w)
  {
    WeightsStayBalanced(s.weights, u.scores);
    var p, actual := ClampPsi(u.psi), if u.crashPoint >= TARGET then 1 else 0;
    BucketsStayInRange(s.buckets, Bin(p), p, actual);
    PushKeepsStep(s.recentErrors, s.longErrors, Square(p - actual as real), s.observationCount, w);
  }

  predicate AllScored(us: seq<Update>) {
    us == [] || (Scores(us[0].scores) && AllScored(us[1..]))
  }

  function UpdatedAll(s: Online, us: seq<Update>, w: Windows): Online
    requires |s.weights| == MODELS && |s.buckets| == BIN_COUNT && AllScored(us)
    decreases |us|
  {
    if us == [] then s else UpdatedAll(Updated(s, us[0], w), us[1..], w)
  }

  lemma {:induction false} InitialIsHealthy(w: Windows)
    ensures Healthy(Initial(), w)
  {
    var ws := Initial().weights;
    assert Sum(ws) == 1.0 by {
      assert ws == [ws[0], ws[0], ws[0], ws[0], ws[0], ws[0], ws[0]];
      SumBetween(ws, 1.0 / 7.0, 1.0 / 7.0);
    }
    NoCounts(Initial().buckets);
  }

  lemma {:induction false} NoCounts(bs: seq<Bucket>)
    requires forall k :: 0 <= k < |bs| ==> bs[k].count == 0
    ensures Counts(bs) == 0
  {
    if bs != [] { NoCounts(bs[..|bs| - 1]); }
  }

  /** Over every run of updates from the initial state the invariant holds. */
  lemma {:induction false} RunsStayHealthy(s: Online, us: seq<Update>, w: Windows)
    requires Healthy(s, w) && w.short <= w.long && AllScored(us)
    ensures Healthy(UpdatedAll(s, us, w), w)
    decreases |us|
  {
    if us != [] {
      UpdateKeepsHealth(s, us[0], w);
      RunsStayHealthy(Updated(s, us[0], w), us[1..], w);
    }
  }

  /** The same for the state the learner starts with. */
  lemma {:induction false} RunsFromInitialAreHealthy(us: seq<Update>, w: Windows)
    requires w.short <= w.long && AllScored(us)
    ensures Healthy(UpdatedAll(Initial(), us, w), w)
  {
    InitialIsHealthy(w);
    RunsStayHealthy(Initial(), us, w);
  }

  // ---------------------------------------------------------------- the ceiling

  lemma {:induction false} QuotientExceeds(a: real, total: real, q: real)
    requires total > 0.0 && q == a / total
    ensures q > W_CEIL <==> a > W_CEIL * total
  {
    assert q * total == a;
    if q > W_CEIL { PositiveProduct(q - W_CEIL, total); } else { ProductSign(W_CEIL - q, total); }
  }

  /** Clamping happens before normalising: a weight passes the ceiling exactly when its clamped value makes up more than 0.32
      of the total, that is more than 8/17 of all the others together. */
  lemma {:induction false} CeilingIsPassedIff(weights: seq<real>, scores: seq<real>, i: nat)
    requires |weights| == |scores| == MODELS && i < MODELS
    ensures var ws := AllAdapted(weights, scores);
      NextWeights(weights, scores)[i] > W_CEIL <==> 17.0 * ws[i] > 8.0 * (Sum(ws) - ws[i])
  {
    var ws := AllAdapted(weights, scores);
    SumBetween(ws, W_FLOOR, W_CEIL);
    QuotientExceeds(ws[i], Sum(ws), ws[i] / Sum(ws));
  }

  /** The first model is always right, the others err by about two thirds. */
  function OneSided(): seq<real> {
    [1.0] + seq(MODELS - 1, _ => 1.0 / 6.0)
  }

  function Steady(n: nat): seq<Update> {
    if n == 0 then [] else [Update(2.0, 0.5, OneSided())] + Steady(n - 1)
  }

  lemma {:induction false} SteadyIsScored(n: nat)
    ensures AllScored(Steady(n))
  {
    if n > 0 {
      SteadyIsScored(n - 1);
      assert Steady(n)[1..] == Steady(n - 1);
    }
  }

  /** Each of the other weights is `ratio` times the first one. */
  ghost predicate Leads(ws: seq<real>, ratio: real) {
    && |ws| == MODELS && Sum(ws) == 1.0
    && forall i :: 1 <= i < MODELS ==> ws[i] == ratio * ws[0]
  }

  lemma {:induction false} LeaderShare(ws: seq<real>, first: real, other: real)
    requires |ws| == MODELS && ws[0] == first && forall i :: 1 <= i < MODELS ==> ws[i] == other
    ensures Sum(ws) == first + 6.0 * other
  {
    SumSplit(ws, 0);
    SumBetween(Others(ws, 0), other, other);
  }

  /** The leader's share lies between 1/7 and the ceiling while the others keep 0.38 to 1 of it. */
  lemma {:induction false} ShareOfLeader(a: real, ratio: real, b: real)
    requires a + 6.0 * b == 1.0 && b == ratio * a && 0.38 <= ratio <= 1.0
    ensures 0.0 < a <= W_CEIL && W_FLOOR <= 0.9 * b <= W_CEIL
  {
    if a <= 0.0 {
      ProductSign(ratio, -a);
    } else {
      ProductSign(ratio - 0.38, a);
      ProductSign(1.0 - ratio, a);
    }
  }

  predicate OnlyFirstIsRight(scores: seq<real>) {
    |scores| == MODELS && scores[0] == 1.0 && forall i :: 1 <= i < MODELS ==> scores[i] == 1.0 / 6.0
  }

  lemma {:induction false} AdaptedLead(ws: seq<real>, scores: seq<real>, a: real, b: real, adapted: seq<real>)
    requires OnlyFirstIsRight(scores) && |ws| == MODELS && ws[0] == a && (forall i :: 1 <= i < MODELS ==> ws[i] == b)
    requires adapted == AllAdapted(ws, scores)
    requires W_FLOOR <= a <= W_CEIL && W_FLOOR <= 0.9 * b <= W_CEIL
    ensures adapted[0] == a && forall i :: 1 <= i < MODELS ==> adapted[i] == 0.9 * b
  {
    forall i | 1 <= i < MODELS ensures adapted[i] == 0.9 * b {
      assert scores[i] == 1.0 / 6.0 && ws[i] == b;
    }
  }

  lemma {:induction false} LeadScaled(adapted: seq<real>, a: real, c: real, k: real, next: seq<real>)
    requires |adapted| == MODELS && adapted[0] == a && (forall i :: 1 <= i < MODELS ==> adapted[i] == c)
    requires c == k * a && Sum(adapted) > 0.0 && next == Scaled(adapted, Sum(adapted)) && Sum(next) == 1.0
    ensures Leads(next, k)
  {
    forall i | 1 <= i < MODELS ensures next[i] == k * next[0] {
      Rescaled(a, Sum(adapted), k, c);
    }
  }

  /** While the leader is below the ceiling, the clamps do nothing and the others fall back by a tenth. */
  lemma {:induction false} LeadGrows(ws: seq<real>, scores: seq<real>, ratio: real)
    requires OnlyFirstIsRight(scores) && Leads(ws, ratio) && 0.38 <= ratio <= 1.0
    ensures Leads(NextWeights(ws, scores), 0.9 * ratio)
  {
    var a, b, adapted := ws[0], ratio * ws[0], AllAdapted(ws, scores);
    LeaderShare(ws, a, b);
    ShareOfLeader(a, ratio, b);
    AdaptedLead(ws, scores, a, b, adapted);
    SumBetween(adapted, W_FLOOR, W_CEIL);
    AnyUpdateNormalises(ws, scores);
    LeadScaled(adapted, a, 0.9 * b, 0.9 * ratio, NextWeights(ws, scores));
  }

  lemma {:induction false} Rescaled(a: real, total: real, k: real, ka: real)
    requires total > 0.0 && ka == k * a
    ensures ka / total == k * (a / total)
  {
    var q, r := a / total, ka / total;
    assert q * total == a && r * total == ka;
    assert (k * q) * total == k * (q * total);
    CancelFactor(r, k * q, total);
    CancelFactor(k * q, r, total);
  }

  function Ratio(n: nat): real {
    if n == 0 then 1.0 else 0.9 * Ratio(n - 1)
  }

  lemma {:induction false} RatioFalls(n: nat)
    ensures n <= 9 ==> 0.38 <= Ratio(n) <= 1.0
    ensures n == 10 ==> 0.0 <= Ratio(n) < 0.35
  {
    assert Ratio(1) == 0.9 && Ratio(2) == 0.81 && Ratio(3) == 0.729 && Ratio(4) == 0.6561 && Ratio(5) == 0.59049;
    assert Ratio(6) == 0.531441 && Ratio(7) == 0.4782969 && Ratio(8) == 0.43046721 && Ratio(9) == 0.387420489;
    assert Ratio(10) == 0.9 * Ratio(9);
  }

  lemma {:induction false} SteadyStep(n: nat)
    requires n > 0
    ensures |Steady(n)| > 0 && Steady(n)[1..] == Steady(n - 1) && OnlyFirstIsRight(Steady(n)[0].scores)
  {}

  lemma {:induction false} LeadRuns(s: Online, done: nat, n: nat, w: Windows)
    requires |s.weights| == MODELS && |s.buckets| == BIN_COUNT && AllScored(Steady(n))
    requires done + n <= 10 && Leads(s.weights, Ratio(done))
    ensures Leads(UpdatedAll(s, Steady(n), w).weights, Ratio(done + n))
    decreases n
  {
    if n > 0 {
      var us := Steady(n);
      SteadyStep(n);
      RatioFalls(done);
      LeadGrows(s.weights, us[0].scores, Ratio(done));
      LeadRuns(Updated(s, us[0], w), done + 1, n - 1, w);
    }
  }

  lemma {:induction false} LeaderPassesTheCeiling(s: Online, n: nat, w: Windows)
    requires n == 10 && |s.buckets| == BIN_COUNT && Leads(s.weights, Ratio(0))
    ensures AllScored(Steady(n)) && |UpdatedAll(s, Steady(n), w).weights| == MODELS
    ensures UpdatedAll(s, Steady(n), w).weights[0] > W_CEIL
  {
    SteadyIsScored(n);
    LeadRuns(s, 0, n, w);
    RatioFalls(n);
    var last := UpdatedAll(s, Steady(n), w).weights;
    LeaderShare(last, last[0], Ratio(n) * last[0]);
    LargeShare(last[0], Ratio(n), Ratio(n) * last[0]);
  }

  /** There is a run from equal weights, ten rounds in which only one model is right, that takes a weight above the ceiling. */
  lemma {:induction false} SomeRunPassesTheCeiling(w: Windows)
    ensures exists us ::
      AllScored(us) && |UpdatedAll(Initial(), us, w).weights| == MODELS && UpdatedAll(Initial(), us, w).weights[0] > W_CEIL
  {
    var n: nat :| n == 10;
    InitialIsHealthy(w);
    LeaderPassesTheCeiling(Initial(), n, w);
  }

  lemma {:induction false} LargeShare(a: real, ratio: real, other: real)
    requires a + 6.0 * other == 1.0 && 0.0 <= ratio < 0.35 && other == ratio * a
    ensures a > W_CEIL
  {
    if a <= W_CEIL { ProductSign(W_CEIL - a, ratio); }
  }
}
