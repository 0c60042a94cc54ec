/** What the pooled blocks mean: the unique least-squares monotone fit, and the shape of the calibration curve. */
module IsotonicOptimality {
  import opened IsotonicCalibration

  predicate Rising(g: seq<real>) {
    forall i, j :: 0 <= i <= j < |g| ==> g[i] <= g[j]
  }

  function Square(x: real): (r: real)
    ensures r >= 0.0
  {
    x * x
  }

  /** Squared error of the assignment `g` to the observations `s`. */
  function SquaredError(g: seq<real>, s: seq<Pair>): real
    requires |g| == |s|
  {
    if g == [] then 0.0
    else
      var n := |g| - 1;
      SquaredError(g[..n], s[..n]) + Square(g[n] - s[n].y as real)
  }

  /** Squared distance between two assignments. */
  function Distance(g: seq<real>, f: seq<real>): (d: real)
    requires |g| == |f|
    ensures d >= 0.0
  {
    if g == [] then 0.0
    else
      var n := |g| - 1;
      Distance(g[..n], f[..n]) + Square(g[n] - f[n])
  }

  function Constant(m: real, n: nat): (c: seq<real>)
    ensures |c| == n && forall i :: 0 <= i < n ==> c[i] == m
  {
    seq(n, _ => m)
  }

  /** The fitted value of every sorted observation: its block's mean. */
  ghost function Fitted(blocks: seq<Block>): seq<real>
    requires Weighted(blocks)
  {
    if blocks == [] then []
    else Constant(Mean(blocks[0]), blocks[0].weight) + Fitted(blocks[1..])
  }

  // ---------------------------------------------------------------- optimality

  lemma {:induction false} SquaredErrorAppend(g1: seq<real>, g2: seq<real>, s1: seq<Pair>, s2: seq<Pair>)
    requires |g1| == |s1| && |g2| == |s2|
    ensures SquaredError(g1 + g2, s1 + s2) == SquaredError(g1, s1) + SquaredError(g2, s2)
  {
    if g2 == [] {
      assert g1 + g2 == g1 && s1 + s2 == s1;
    } else {
      var n := |g2| - 1;
      SquaredErrorAppend(g1, g2[..n], s1, s2[..n]);
      assert (g1 + g2)[..|g1 + g2| - 1] == g1 + g2[..n];
      assert (s1 + s2)[..|s1 + s2| - 1] == s1 + s2[..n];
    }
  }

  lemma {:induction false} DistanceAppend(g1: seq<real>, g2: seq<real>, f1: seq<real>, f2: seq<real>)
    requires |g1| == |f1| && |g2| == |f2|
    ensures Distance(g1 + g2, f1 + f2) == Distance(g1, f1) + Distance(g2, f2)
  {
    if g2 == [] {
      assert g1 + g2 == g1 && f1 + f2 == f1;
    } else {
      var n := |g2| - 1;
      DistanceAppend(g1, g2[..n], f1, f2[..n]);
      assert (g1 + g2)[..|g1 + g2| - 1] == g1 + g2[..n];
      assert (f1 + f2)[..|f1 + f2| - 1] == f1 + f2[..n];
    }
  }

  function Times(a: real, b: real): real { a * b }

  /** The inner product of `g - m` with the residuals `m - y`. */
  function Cross(g: seq<real>, m: real, s: seq<Pair>): real
    requires |g| == |s|
  {
    if g == [] then 0.0
    else
      var n := |g| - 1;
      Cross(g[..n], m, s[..n]) + Times(g[n] - m, m - s[n].y as real)
  }

  lemma {:induction false} SquareSplit(g: real, m: real, y: real)
    ensures Square(g - y) == Square(m - y) + Square(g - m) + 2.0 * Times(g - m, m - y)
  {}

  lemma {:induction false} ErrorSplits(g: seq<real>, c: seq<real>, m: real, s: seq<Pair>)
    requires |g| == |s| == |c| && forall i :: 0 <= i < |c| ==> c[i] == m
    ensures SquaredError(g, s) == SquaredError(c, s) + Distance(g, c) + 2.0 * Cross(g, m, s)
  {
    if g != [] {
      var n := |g| - 1;
      ErrorSplits(g[..n], c[..n], m, s[..n]);
      SquareSplit(g[n], m, s[n].y as real);
    }
  }

  lemma {:induction false} AbelStep(c: real, lo: real, hi: real, m: real, d: real, e: real)
    requires lo <= hi && d <= 0.0 && c >= Times(lo - m, d)
    ensures c + Times(hi - m, e) >= Times(hi - m, d + e)
  {
    assert (hi - lo) * d <= 0.0;
  }

  /** How far the prefix of length `k` lies below the level `m`. */
  ghost function Deficit(s: seq<Pair>, m: real, k: nat): real
    requires k <= |s|
  {
    m * k as real - SumY(s[..k]) as real
  }

  lemma {:induction false} DeficitStep(s: seq<Pair>, m: real, k: nat)
    requires 0 < k <= |s|
    ensures Deficit(s, m, k) == Deficit(s, m, k - 1) + (m - s[k - 1].y as real)
  {
    assert s[..k][..k - 1] == s[..k - 1];
    assert m * k as real == m * (k - 1) as real + m;
  }

  /** Summation by parts: prefixes of a pool lie above its mean, so residuals favour the early entries. */
  lemma {:induction false} CrossBound(g: seq<real>, m: real, s: seq<Pair>, k: nat)
    requires |g| == |s| && Rising(g) && 0 < k <= |g|
    requires forall j :: 0 < j <= k ==> Deficit(s, m, j) <= 0.0
    ensures Cross(g[..k], m, s[..k]) >= Times(g[k - 1] - m, Deficit(s, m, k))
  {
    assert g[..k][..k - 1] == g[..k - 1] && s[..k][..k - 1] == s[..k - 1];
    DeficitStep(s, m, k);
    var e := m - s[k - 1].y as real;
    assert Cross(g[..k], m, s[..k]) == Cross(g[..k - 1], m, s[..k - 1]) + Times(g[k - 1] - m, e);
    if k == 1 {
      assert Deficit(s, m, 0) == 0.0;
    } else {
      CrossBound(g, m, s, k - 1);
      AbelStep(Cross(g[..k - 1], m, s[..k - 1]), g[k - 2], g[k - 1], m, Deficit(s, m, k - 1), e);
    }
  }

  lemma {:induction false} CancelReal(c: real, a: real, b: real)
    requires c > 0.0 && a * c <= b * c
    ensures a <= b
  {
    if a > b { ScaleOrder(a, b, c); }
  }

  lemma {:induction false} MeanBelowPrefix(pk: int, k: nat, s: int, w: nat, m: real)
    requires w > 0 && m * w as real == s as real && pk * w >= s * k
    ensures m * k as real <= pk as real
  {
    var r := w as real;
    assert (pk * w) as real == pk as real * r;
    assert (s * k) as real == (m * k as real) * r;
    CancelReal(r, m * k as real, pk as real);
  }

  /** Within one pool every rising assignment costs at least the mean, by its squared distance from it. */
  lemma {:induction false} PoolIsOptimal(b: Block, g: seq<real>, s: seq<Pair>)
    requires Pools(b, s) && |g| == |s| && Rising(g)
    ensures SquaredError(g, s)
         >= SquaredError(Constant(Mean(b), |g|), s) + Distance(g, Constant(Mean(b), |g|))
  {
    var m, w := Mean(b), b.weight;
    PoolDeficits(s, m);
    CrossBound(g, m, s, w);
    assert g[..w] == g && s[..w] == s;
    ErrorSplits(g, Constant(m, |g|), m, s);
  }

  lemma {:induction false} DeficitAt(s: seq<Pair>, m: real, j: nat)
    requires FallingBlock(s) && 0 < j <= |s| && m * |s| as real == SumY(s) as real
    ensures Deficit(s, m, j) <= 0.0
  {
    PrefixAtLeast(s, j);
    MeanBelowPrefix(SumY(s[..j]), j, SumY(s), |s|, m);
  }

  lemma {:induction false} PoolDeficits(s: seq<Pair>, m: real)
    requires FallingBlock(s) && s != [] && m * |s| as real == SumY(s) as real
    ensures forall j :: 0 < j <= |s| ==> Deficit(s, m, j) <= 0.0
    ensures Deficit(s, m, |s|) == 0.0
  {
    forall j | 0 < j <= |s| ensures Deficit(s, m, j) <= 0.0 {
      DeficitAt(s, m, j);
    }
    assert s[..|s|] == s;
  }

  /**
   * Least squares: every rising assignment to the sorted observations costs at least as much as the block
   * means, and the excess is at least its squared distance from them, so the minimiser is unique.
   */
  lemma {:induction false} BlockMeansAreOptimal(blocks: seq<Block>, s: seq<Pair>, g: seq<real>)
    requires Partitions(blocks, s) && Weighted(blocks) && |g| == |s| && Rising(g)
    ensures |Fitted(blocks)| == |s|
    ensures SquaredError(g, s) >= SquaredError(Fitted(blocks), s) + Distance(g, Fitted(blocks))
  {
    if blocks != [] {
      var w := blocks[0].weight;
      BlockMeansAreOptimal(blocks[1..], s[w..], g[w..]);
      PoolIsOptimal(blocks[0], g[..w], s[..w]);
      var c, f := Constant(Mean(blocks[0]), w), Fitted(blocks[1..]);
      assert g == g[..w] + g[w..] && s == s[..w] + s[w..];
      SquaredErrorAppend(g[..w], g[w..], s[..w], s[w..]);
      SquaredErrorAppend(c, f, s[..w], s[w..]);
      DistanceAppend(g[..w], g[w..], c, f);
    }
  }

  // ---------------------------------------------------------------- tolerance

  predicate Exceeds(a: Block, b: Block) {
    a.sumY * b.weight > b.sumY * a.weight
  }

  lemma {:induction false} ViolatesScaled(a: Block, b: Block)
    requires a.weight > 0 && b.weight > 0
    ensures Violates(a, b) <==>
      (a.sumY * b.weight - b.sumY * a.weight) as real > TOLERANCE * (a.weight * b.weight) as real
  {
    var m1, m2 := a.sumY as real / a.weight as real, b.sumY as real / b.weight as real;
    var r1, r2 := a.weight as real, b.weight as real;
    var area := r1 * r2;
    assert area > 0.0;
    assert m1 * r1 == a.sumY as real && m2 * r2 == b.sumY as real;
    assert (a.sumY * b.weight) as real == m1 * area;
    assert (b.sumY * a.weight) as real == m2 * area;
    ScaleOrder(m1 - m2, TOLERANCE, area);
    assert m1 * area - m2 * area == (m1 - m2) * area;
  }

  lemma {:induction false} ScaleOrder(x: real, y: real, c: real)
    requires c > 0.0
    ensures x > y <==> x * c > y * c
  {
    if x > y { assert (x - y) * c > 0.0; } else { assert (y - x) * c >= 0.0; }
  }

  lemma {:induction false} WeightProduct(w1: nat, w2: nat, half: nat)
    requires w1 + w2 <= 2 * half
    ensures w1 * w2 <= half * half
    ensures w1 * w2 == half * half ==> w1 == half && w2 == half
  {
    var d := half - w1;
    BelowRectangle(w1, w2, half);
    SquarePositive(d);
    if w1 == half {
      if w2 < half { BelowRectangleStrict(half, w2); }
    }
  }

  lemma {:induction false} BelowRectangle(w1: nat, w2: nat, half: nat)
    requires w1 + w2 <= 2 * half
    ensures w1 * w2 <= half * half - (half - w1) * (half - w1)
  {
    var top := 2 * half - w1;
    assert w1 * w2 <= w1 * top;
    assert w1 * top == half * half - (half - w1) * (half - w1);
  }

  lemma {:induction false} BelowRectangleStrict(half: nat, w: nat)
    requires w < half
    ensures half * w < half * half
  {}

  lemma {:induction false} SquarePositive(d: int)
    ensures d * d >= 0 && (d != 0 ==> d * d > 0)
  {}

  /** Up to the limit the tolerant test is the exact comparison of the means. */
  lemma {:induction false} ToleranceHidesNothing(a: Block, b: Block)
    requires a.weight > 0 && b.weight > 0 && a.weight + b.weight <= EXACT_LIMIT
    ensures Violates(a, b) <==> Exceeds(a, b)
  {
    ViolatesScaled(a, b);
    var d, area := a.sumY * b.weight - b.sumY * a.weight, a.weight * b.weight;
    WeightProduct(a.weight, b.weight, 1_000_000);
    if d >= 1 && area == 1_000_000_000_000 {
      assert d == (a.sumY - b.sumY) * 1_000_000;
    }
  }

  /** Exactly when the tolerance is harmless: for blocks of total weight `n` it never hides a violation iff `n` is within the limit. */
  lemma {:induction false} ToleranceExactIff(n: nat)
    ensures n <= EXACT_LIMIT <==>
      forall a: Block, b: Block :: a.weight > 0 && b.weight > 0 && a.weight + b.weight <= n
        ==> (Violates(a, b) <==> Exceeds(a, b))
  {
    if n <= EXACT_LIMIT {
      forall a: Block, b: Block | a.weight > 0 && b.weight > 0 && a.weight + b.weight <= n
        ensures Violates(a, b) <==> Exceeds(a, b)
      {
        ToleranceHidesNothing(a, b);
      }
    } else {
      var a, b := Block(1_000_000, 1, 0.0, 0.0), Block(1_000_001, 1, 0.0, 0.0);
      ViolatesScaled(a, b);
      assert Exceeds(a, b) && !Violates(a, b);
    }
  }

  function TotalWeight(blocks: seq<Block>): nat {
    if blocks == [] then 0 else blocks[0].weight + TotalWeight(blocks[1..])
  }

  lemma {:induction false} PartitionTotals(blocks: seq<Block>, s: seq<Pair>)
    requires Partitions(blocks, s)
    ensures TotalWeight(blocks) == |s|
    ensures forall k :: 0 <= k < |blocks| - 1 ==> blocks[k].weight + blocks[k + 1].weight <= |s|
  {
    if blocks != [] {
      PartitionTotals(blocks[1..], s[blocks[0].weight..]);
      forall k | 0 <= k < |blocks| - 1 ensures blocks[k].weight + blocks[k + 1].weight <= |s| {
        if k > 0 { assert blocks[k] == blocks[1..][k - 1] && blocks[k + 1] == blocks[1..][k]; }
      }
    }
  }

  ghost predicate MeansRise(blocks: seq<Block>)
    requires Weighted(blocks)
  {
    forall i, j :: 0 <= i <= j < |blocks| ==> Mean(blocks[i]) <= Mean(blocks[j])
  }

  lemma {:induction false} ChainedMeans(blocks: seq<Block>, i: nat, j: nat)
    requires Weighted(blocks) && i <= j < |blocks|
    requires forall k :: 0 <= k < |blocks| - 1 ==> !Exceeds(blocks[k], blocks[k + 1])
    ensures Mean(blocks[i]) <= Mean(blocks[j])
  {
    if i < j {
      ChainedMeans(blocks, i, j - 1);
      QuotientsCross(blocks[j - 1].sumY, blocks[j - 1].weight, blocks[j].sumY, blocks[j].weight);
    }
  }

  /** A fit of at most the limit ends with nondecreasing means. */
  lemma {:induction false} FitMeansRise(blocks: seq<Block>, pairs: seq<Pair>)
    requires FitOf(blocks, pairs) && Weighted(blocks) && |pairs| <= EXACT_LIMIT
    ensures MeansRise(blocks)
  {
    StableSortSorts(pairs, 0.0);
    PartitionTotals(blocks, StableSort(pairs));
    forall k | 0 <= k < |blocks| - 1 ensures !Exceeds(blocks[k], blocks[k + 1]) {
      ToleranceHidesNothing(blocks[k], blocks[k + 1]);
    }
    forall i, j | 0 <= i <= j < |blocks| ensures Mean(blocks[i]) <= Mean(blocks[j]) {
      ChainedMeans(blocks, i, j);
    }
  }

  lemma {:induction false} FittedRises(blocks: seq<Block>, low: real)
    requires Weighted(blocks) && MeansRise(blocks)
    requires blocks != [] ==> low <= Mean(blocks[0])
    ensures Rising(Fitted(blocks)) && forall x :: x in Fitted(blocks) ==> low <= x
  {
    if blocks != [] {
      var rest := blocks[1..];
      assert forall k :: 0 <= k < |rest| ==> rest[k] == blocks[k + 1];
      FittedRises(rest, Mean(blocks[0]));
      var c, f := Constant(Mean(blocks[0]), blocks[0].weight), Fitted(rest);
      forall i, j | 0 <= i <= j < |c + f| ensures (c + f)[i] <= (c + f)[j] {
        if j >= |c| { assert (c + f)[j] in f; }
      }
    }
  }

  /**
   * The fit is the isotonic regression: it is itself rising, and it is the only rising assignment
   * that reaches its squared error.
   */
  lemma {:induction false} FitIsTheIsotonicRegression(blocks: seq<Block>, pairs: seq<Pair>, g: seq<real>)
    requires FitOf(blocks, pairs) && Weighted(blocks) && |pairs| <= EXACT_LIMIT
    requires |g| == |pairs| && Rising(g)
    ensures |StableSort(pairs)| == |Fitted(blocks)| == |pairs| && Rising(Fitted(blocks))
    ensures SquaredError(Fitted(blocks), StableSort(pairs)) <= SquaredError(g, StableSort(pairs))
    ensures SquaredError(g, StableSort(pairs)) == SquaredError(Fitted(blocks), StableSort(pairs))
      <==> g == Fitted(blocks)
  {
    StableSortSorts(pairs, 0.0);
    var s := StableSort(pairs);
    BlockMeansAreOptimal(blocks, s, g);
    FitMeansRise(blocks, pairs);
    FittedRises(blocks, if blocks == [] then 0.0 else Mean(blocks[0]));
    if SquaredError(g, s) == SquaredError(Fitted(blocks), s) {
      ZeroDistance(g, Fitted(blocks));
    }
  }

  lemma {:induction false} ZeroDistance(g: seq<real>, f: seq<real>)
    requires |g| == |f| && Distance(g, f) <= 0.0
    ensures g == f
  {
    if g != [] {
      var n := |g| - 1;
      SquareZero(g[n] - f[n]);
      ZeroDistance(g[..n], f[..n]);
      assert g == g[..n] + [g[n]] && f == f[..n] + [f[n]];
    }
  }

  lemma {:induction false} ProductPositive(x: real, y: real, r: real)
    requires x > 0.0 && y > 0.0 && r == x * y
    ensures r > 0.0
  {}

  lemma {:induction false} ProductOfNegatives(x: real, y: real, r: real)
    requires x < 0.0 && y < 0.0 && r == x * y
    ensures r > 0.0
  {
    assert (-x) * (-y) == r;
    ProductPositive(-x, -y, r);
  }

  lemma {:induction false} SquareZero(x: real)
    requires Square(x) <= 0.0
    ensures x == 0.0
  {
    if x > 0.0 { ProductPositive(x, x, Square(x)); }
    if x < 0.0 { ProductOfNegatives(x, x, Square(x)); }
  }

  // ---------------------------------------------------------------- uniqueness of the blocks

  /** When no mean is below `s/w`, every prefix of the observations averages at least that much. */
  lemma {:induction false} PrefixesAboveLevel(blocks: seq<Block>, obs: seq<Pair>, s: int, w: nat, k: nat)
    requires Partitions(blocks, obs) && w > 0 && k <= |obs|
    requires forall i :: 0 <= i < |blocks| ==> blocks[i].sumY * w >= s * blocks[i].weight
    ensures SumY(obs[..k]) * w >= s * k
  {
    if blocks == [] || k == 0 {
      assert SumY(obs[..k]) == 0;
    } else {
      var u := blocks[0].weight;
      if k <= u {
        assert obs[..u][..k] == obs[..k];
        PrefixAtLeast(obs[..u], k);
        RatioChain(SumY(obs[..k]), k, blocks[0].sumY, u, s, w);
      } else {
        var tail := obs[u..];
        PrefixesAboveLevel(blocks[1..], tail, s, w, k - u);
        assert obs[..k] == obs[..u] + tail[..k - u];
        SumYAppend(obs[..u], tail[..k - u]);
        Spread(SumY(obs[..u]), SumY(tail[..k - u]), w, s, u, k - u);
      }
    }
  }

  lemma {:induction false} Spread(a: int, b: int, w: int, s: int, u: int, v: int)
    requires a * w >= s * u && b * w >= s * v
    ensures (a + b) * w >= s * (u + v)
  {}

  lemma {:induction false} RatioChain(p: int, k: int, b: int, u: int, s: int, w: int)
    requires k >= 0 && u > 0 && w > 0 && p * u >= b * k && b * w >= s * u
    ensures p * w >= s * k
  {
    assert (p * u) * w >= (b * k) * w;
    assert (b * w) * k >= (s * u) * k;
    assert (p * w) * u >= (s * k) * u by {
      assert (p * u) * w == (p * w) * u;
      assert (b * k) * w == (b * w) * k;
      assert (s * u) * k == (s * k) * u;
    }
  }

  ghost predicate Ordered(blocks: seq<Block>) {
    forall i, j :: 0 <= i <= j < |blocks| ==> !Exceeds(blocks[i], blocks[j])
  }

  lemma {:induction false} FallsInside(b: Block, obs: seq<Pair>, w: nat)
    requires b.weight <= |obs| && Pools(b, obs[..b.weight]) && 0 < w <= |obs|
    ensures w >= b.weight || SumY(obs[..w]) * b.weight > b.sumY * w
  {
    if w < b.weight { assert obs[..b.weight][..w] == obs[..w]; }
  }

  /** A first pool cannot stop inside another: the longer one would rise where it has to fall. */
  lemma {:induction false} FirstPoolIsLongest(p: seq<Block>, q: seq<Block>, obs: seq<Pair>)
    requires Partitions(p, obs) && Partitions(q, obs) && Ordered(p) && obs != []
    ensures q[0].weight <= p[0].weight
  {
    var w, s := p[0].weight, p[0].sumY;
    forall i | 0 <= i < |p| ensures p[i].sumY * w >= s * p[i].weight {
      assert !Exceeds(p[0], p[i]);
    }
    PrefixesAboveLevel(p, obs, s, w, q[0].weight);
    FallsInside(q[0], obs, w);
  }

  /** The ordered pools of a list of observations are determined by it. */
  lemma {:induction false} BlocksAreUnique(p: seq<Block>, q: seq<Block>, obs: seq<Pair>)
    requires Partitions(p, obs) && Partitions(q, obs) && Ordered(p) && Ordered(q)
    ensures p == q
  {
    if obs != [] {
      FirstPoolIsLongest(p, q, obs);
      FirstPoolIsLongest(q, p, obs);
      assert p[0] == q[0];
      var w := p[0].weight;
      assert forall r: seq<Block>, i :: Ordered(r) && 0 < i < |r| ==> r[1..][i - 1] == r[i];
      BlocksAreUnique(p[1..], q[1..], obs[w..]);
      assert p == [p[0]] + p[1..] && q == [q[0]] + q[1..];
    }
  }

  lemma {:induction false} FitIsOrdered(blocks: seq<Block>, pairs: seq<Pair>)
    requires FitOf(blocks, pairs) && |pairs| <= EXACT_LIMIT
    ensures Ordered(blocks)
  {
    PartitionWeights(blocks, StableSort(pairs));
    FitMeansRise(blocks, pairs);
    forall i, j | 0 <= i <= j < |blocks| ensures !Exceeds(blocks[i], blocks[j]) {
      QuotientsCross(blocks[i].sumY, blocks[i].weight, blocks[j].sumY, blocks[j].weight);
    }
  }

  /** The contract of `Fit` leaves no freedom: one list of pairs has one list of blocks. */
  lemma {:induction false} FitIsDetermined(p: seq<Block>, q: seq<Block>, pairs: seq<Pair>)
    requires FitOf(p, pairs) && FitOf(q, pairs) && |pairs| <= EXACT_LIMIT
    ensures p == q
  {
    FitIsOrdered(p, pairs);
    FitIsOrdered(q, pairs);
    BlocksAreUnique(p, q, StableSort(pairs));
  }

  // ---------------------------------------------------------------- the calibration curve

  /** The blocks' score ranges lie side by side, and the means do not fall. */
  ghost predicate Curve(blocks: seq<Block>) {
    && blocks != [] && Weighted(blocks) && MeansRise(blocks)
    && (forall k :: 0 <= k < |blocks| ==> blocks[k].minX <= blocks[k].maxX)
    && (forall i, j :: 0 <= i < j < |blocks| ==> blocks[i].maxX <= blocks[j].minX)
  }

  lemma {:induction false} RangesSideBySide(blocks: seq<Block>, s: seq<Pair>)
    requires Partitions(blocks, s) && Sorted(s)
    ensures forall k :: 0 <= k < |blocks| ==> blocks[k].minX <= blocks[k].maxX
    ensures forall k :: 0 <= k < |blocks| ==> s[0].p <= blocks[k].minX
    ensures forall i, j :: 0 <= i < j < |blocks| ==> blocks[i].maxX <= blocks[j].minX
  {
    if blocks != [] {
      var w, rest := blocks[0].weight, blocks[1..];
      var tail := s[w..];
      RangesSideBySide(rest, tail);
      assert forall k :: 0 < k < |blocks| ==> blocks[k] == rest[k - 1];
      if rest != [] { assert blocks[0].maxX == s[w - 1].p <= tail[0].p; }
    }
  }

  lemma {:induction false} FitIsACurve(blocks: seq<Block>, pairs: seq<Pair>)
    requires FitOf(blocks, pairs) && pairs != [] && |pairs| <= EXACT_LIMIT
    ensures Curve(blocks)
  {
    StableSortSorts(pairs, 0.0);
    PartitionWeights(blocks, StableSort(pairs));
    FitMeansRise(blocks, pairs);
    RangesSideBySide(blocks, StableSort(pairs));
  }

  /** `p` lies strictly between the ranges of two neighbouring blocks. */
  predicate InGap(blocks: seq<Block>, p: real) {
    exists k :: 0 <= k < |blocks| - 1 && blocks[k].maxX < p < blocks[k + 1].minX
  }

  /** Outside the gaps the chosen block is at least as far right as any block whose range starts by `p`. */
  lemma {:induction false} ChosenOutsideGap(blocks: seq<Block>, p: real)
    requires Curve(blocks) && !InGap(blocks, p)
    ensures forall k :: 0 <= k < Chosen(blocks, p) ==> blocks[k].maxX < p
    ensures p > blocks[Chosen(blocks, p)].maxX ==> Chosen(blocks, p) == |blocks| - 1
    ensures p < blocks[Chosen(blocks, p)].minX ==> Chosen(blocks, p) == 0
  {
    var c := Chosen(blocks, p);
    var h := Hit(blocks, p, 0);
    if h < |blocks| {
      forall k | 0 <= k < h ensures blocks[k].maxX < p {
        assert blocks[k].maxX <= blocks[h].minX;
      }
    } else if p >= blocks[0].minX {
      RightOfAll(blocks, p, |blocks| - 1);
    }
  }

  lemma {:induction false} RightOfAll(blocks: seq<Block>, p: real, k: nat)
    requires Curve(blocks) && !InGap(blocks, p) && k < |blocks|
    requires p >= blocks[0].minX && Hit(blocks, p, 0) == |blocks|
    ensures forall j :: 0 <= j <= k ==> blocks[j].maxX < p
  {
    assert !(blocks[k].minX <= p <= blocks[k].maxX);
    if k > 0 {
      RightOfAll(blocks, p, k - 1);
      assert !(blocks[k - 1].maxX < p < blocks[k - 1 + 1].minX);
    }
  }

  /** Away from interior gaps a higher score is never calibrated lower. */
  lemma {:induction false} CalibratedRisesOutsideGaps(blocks: seq<Block>, p: real, q: real)
    requires Curve(blocks) && p <= q && !InGap(blocks, p) && !InGap(blocks, q)
    ensures 0.01 <= Calibrated(blocks, p) <= Calibrated(blocks, q) <= 0.99
  {
    ChosenOutsideGap(blocks, p);
    ChosenOutsideGap(blocks, q);
    var i, j := Chosen(blocks, p), Chosen(blocks, q);
    assert i <= j;
  }

  lemma {:induction false} GapFallsThrough(blocks: seq<Block>, p: real, k: nat)
    requires Curve(blocks) && k < |blocks| - 1 && blocks[k].maxX < p < blocks[k + 1].minX
    ensures Chosen(blocks, p) == |blocks| - 1
  {
    var h := Hit(blocks, p, 0);
  }

  /** Every block strictly after an open gap is calibrated like the last one. */
  predicate GapsAreFlat(blocks: seq<Block>)
    requires Weighted(blocks)
  {
    forall k :: 0 <= k < |blocks| - 1 && blocks[k].maxX < blocks[k + 1].minX
      ==> Level(blocks, k + 1) == Level(blocks, |blocks| - 1)
  }

  ghost predicate CalibrationRises(blocks: seq<Block>)
    requires blocks != [] && Weighted(blocks)
  {
    forall p: real, q: real :: p <= q ==> Calibrated(blocks, p) <= Calibrated(blocks, q)
  }

  lemma {:induction false} RisingForcesFlatGaps(blocks: seq<Block>, k: nat)
    requires Curve(blocks) && CalibrationRises(blocks)
    requires k < |blocks| - 1 && blocks[k].maxX < blocks[k + 1].minX
    ensures Level(blocks, k + 1) == Level(blocks, |blocks| - 1)
  {
    var p, q := (blocks[k].maxX + blocks[k + 1].minX) / 2.0, blocks[k + 1].minX;
    GapFallsThrough(blocks, p, k);
    ChosenAtStart(blocks, k + 1);
    assert Calibrated(blocks, p) <= Calibrated(blocks, q);
  }

  lemma {:induction false} GapLeftRises(blocks: seq<Block>, k: nat, p: real, q: real)
    requires Curve(blocks) && GapsAreFlat(blocks) && p <= q
    requires k < |blocks| - 1 && blocks[k].maxX < p < blocks[k + 1].minX
    ensures Calibrated(blocks, p) <= Calibrated(blocks, q)
  {
    GapFallsThrough(blocks, p, k);
    AfterGap(blocks, q, k);
    assert Level(blocks, k + 1) == Level(blocks, |blocks| - 1);
    assert Level(blocks, k + 1) <= Level(blocks, Chosen(blocks, q));
  }

  lemma {:induction false} GapRightRises(blocks: seq<Block>, k: nat, p: real, q: real)
    requires Curve(blocks) && k < |blocks| - 1 && blocks[k].maxX < q < blocks[k + 1].minX
    ensures Calibrated(blocks, p) <= Calibrated(blocks, q)
  {
    GapFallsThrough(blocks, q, k);
  }

  lemma {:induction false} FlatGapsRise(blocks: seq<Block>, p: real, q: real)
    requires Curve(blocks) && GapsAreFlat(blocks) && p <= q
    ensures Calibrated(blocks, p) <= Calibrated(blocks, q)
  {
    if InGap(blocks, p) {
      var k :| 0 <= k < |blocks| - 1 && blocks[k].maxX < p < blocks[k + 1].minX;
      GapLeftRises(blocks, k, p, q);
    } else if InGap(blocks, q) {
      var k :| 0 <= k < |blocks| - 1 && blocks[k].maxX < q < blocks[k + 1].minX;
      GapRightRises(blocks, k, p, q);
    } else {
      CalibratedRisesOutsideGaps(blocks, p, q);
    }
  }

  /** A score inside a gap is sent to the last block, so calibration is monotone exactly when gaps only precede a flat end. */
  lemma {:induction false} CalibrationRisesIff(blocks: seq<Block>)
    requires Curve(blocks)
    ensures CalibrationRises(blocks) <==> GapsAreFlat(blocks)
  {
    if CalibrationRises(blocks) {
      forall k | 0 <= k < |blocks| - 1 && blocks[k].maxX < blocks[k + 1].minX
        ensures Level(blocks, k + 1) == Level(blocks, |blocks| - 1)
      {
        RisingForcesFlatGaps(blocks, k);
      }
    }
    if GapsAreFlat(blocks) {
      forall p: real, q: real | p <= q ensures Calibrated(blocks, p) <= Calibrated(blocks, q) {
        FlatGapsRise(blocks, p, q);
      }
    }
  }

  lemma {:induction false} ChosenAtStart(blocks: seq<Block>, k: nat)
    requires Curve(blocks) && 0 < k < |blocks| && blocks[k - 1].maxX < blocks[k].minX
    ensures Chosen(blocks, blocks[k].minX) == k
  {
    var h := Hit(blocks, blocks[k].minX, 0);
    assert blocks[k].minX <= blocks[k].maxX;
  }

  lemma {:induction false} AfterGap(blocks: seq<Block>, q: real, k: nat)
    requires Curve(blocks) && k < |blocks| - 1 && blocks[k].maxX < q
    ensures k + 1 <= Chosen(blocks, q)
  {
    var h := Hit(blocks, q, 0);
  }

  /** In a curve with an open gap before a block of lower level, a score inside the gap beats the larger score that opens that block. */
  lemma {:induction false} GapBreaksMonotonicity(blocks: seq<Block>, k: nat)
    requires Curve(blocks) && k < |blocks| - 1 && blocks[k].maxX < blocks[k + 1].minX
    requires Level(blocks, k + 1) < Level(blocks, |blocks| - 1)
    ensures var p, q := (blocks[k].maxX + blocks[k + 1].minX) / 2.0, blocks[k + 1].minX;
      p < q && Calibrated(blocks, p) > Calibrated(blocks, q)
  {
    GapFallsThrough(blocks, (blocks[k].maxX + blocks[k + 1].minX) / 2.0, k);
    ChosenAtStart(blocks, k + 1);
  }

  lemma {:induction false} SortedIsFixed(s: seq<Pair>)
    requires Sorted(s)
    ensures StableSort(s) == s
  {
    if s != [] { SortedIsFixed(s[..|s| - 1]); }
  }

  lemma {:induction false} PartitionAppend(b1: seq<Block>, s1: seq<Pair>, b2: seq<Block>, s2: seq<Pair>)
    requires Partitions(b1, s1) && Partitions(b2, s2)
    ensures Partitions(b1 + b2, s1 + s2)
  {
    if b1 == [] {
      assert b1 + b2 == b2 && s1 + s2 == s2;
    } else {
      var w := b1[0].weight;
      PartitionAppend(b1[1..], s1[w..], b2, s2);
      assert (b1 + b2)[1..] == b1[1..] + b2;
      assert (s1 + s2)[..w] == s1[..w] && (s1 + s2)[w..] == s1[w..] + s2;
    }
  }

  /** Misses at one score, then a hit, a miss and a hit at higher scores. */
  function GapSample(n: nat): (s: seq<Pair>)
    ensures Sorted(s) && |s| == n + 3
  {
    seq(n, _ => Pair(0.1, 0)) + [Pair(0.4, 1), Pair(0.5, 0), Pair(0.6, 1)]
  }

  function GapTail(): seq<Block> {
    [Block(2, 1, 0.4, 0.5), Block(1, 1, 0.6, 0.6)]
  }

  lemma {:induction false} GapTailPartitions()
    ensures Partitions(GapTail(), [Pair(0.4, 1), Pair(0.5, 0), Pair(0.6, 1)])
  {
    var s := [Pair(0.4, 1), Pair(0.5, 0), Pair(0.6, 1)];
    var first := s[..2];
    assert first[..1] == [Pair(0.4, 1)] && first[..1][..0] == [];
    assert SumY(first[..1]) == 1 && SumY(first) == 1;
    SingletonsPartition(s[2..]);
    assert GapTail()[1..] == Singletons(s[2..]);
  }

  lemma {:induction false} EqualSingletons(s: seq<Pair>, r: Pair)
    requires forall k :: 0 <= k < |s| ==> s[k] == r
    ensures Singletons(s) == seq(|s|, _ => Singleton(r))
  {
    if s != [] { EqualSingletons(s[1..], r); }
  }

  lemma {:induction false} GapFit(n: nat)
    requires 0 < n
    ensures FitOf(seq(n, _ => Block(1, 0, 0.1, 0.1)) + GapTail(), GapSample(n))
  {
    var misses := seq(n, _ => Pair(0.1, 0));
    SortedIsFixed(GapSample(n));
    SingletonsPartition(misses);
    EqualSingletons(misses, Pair(0.1, 0));
    GapTailPartitions();
    PartitionAppend(Singletons(misses), misses, GapTail(), [Pair(0.4, 1), Pair(0.5, 0), Pair(0.6, 1)]);
  }

  /** A concrete fit with the defect: whatever `Fit` stores for this sample, 0.25 is calibrated above 0.4. */
  lemma {:induction false} SomeFitIsNotMonotone(blocks: seq<Block>)
    requires FitOf(blocks, GapSample(28))
    ensures Curve(blocks) && Calibrated(blocks, 0.25) > Calibrated(blocks, 0.4)
  {
    var expected := seq(28, _ => Block(1, 0, 0.1, 0.1)) + GapTail();
    GapFit(28);
    FitIsDetermined(blocks, expected, GapSample(28));
    FitIsACurve(blocks, GapSample(28));
    assert blocks[27] == Block(1, 0, 0.1, 0.1) && blocks[28] == GapTail()[0] && blocks[29] == GapTail()[1];
    GapBreaksMonotonicity(blocks, 27);
  }

  // ---------------------------------------------------------------- the limit is exact for fits

  lemma {:induction false} SettledStays(blocks: seq<Block>, i: nat)
    requires Weighted(blocks) && Settled(blocks)
    ensures PoolFrom(blocks, i) == blocks
    decreases |blocks| - i
  {
    if i + 1 < |blocks| { SettledStays(blocks, i + 1); }
  }

  function Misses(n: nat, x: real): seq<Pair> { seq(n, _ => Pair(x, 0)) }

  function Hits(n: nat, x: real): seq<Pair> { seq(n, _ => Pair(x, 1)) }

  /** A hit pooled with `k - 1` misses. */
  function Pooled(k: nat, x: real): Block { Block(k, 1, x, x) }

  lemma {:induction false} SingletonsOfMore(first: Pair, s: seq<Pair>)
    ensures Singletons([first] + s) == [Singleton(first)] + Singletons(s)
  {
    assert ([first] + s)[1..] == s;
  }

  /** The blocks with a pooled hit behind `front`. */
  function WithHit(front: seq<Block>, k: nat, x: real, rest: seq<Block>): (blocks: seq<Block>)
    requires 0 < k && Weighted(front) && Weighted(rest)
    ensures Weighted(blocks)
  {
    front + [Pooled(k, x)] + rest
  }

  lemma {:induction false} HitBeatsMiss(k: nat, x: real)
    requires 0 < k <= EXACT_LIMIT
    ensures Violates(Pooled(k, x), Singleton(Pair(x, 0)))
  {
    ViolatesScaled(Pooled(k, x), Singleton(Pair(x, 0)));
  }

  lemma {:induction false} PoolsTheMiss(front: seq<Block>, k: nat, x: real, rest: seq<Block>)
    requires 0 < k && Weighted(front) && Weighted(rest)
    ensures Weighted([Singleton(Pair(x, 0))] + rest)
    ensures PoolAt(WithHit(front, k, x, [Singleton(Pair(x, 0))] + rest), |front|) == WithHit(front, k + 1, x, rest)
  {}

  lemma {:induction false} TakesInOne(front: seq<Block>, k: nat, x: real, rest: seq<Block>)
    requires 0 < k <= EXACT_LIMIT && |front| <= 1 && Weighted(front) && Weighted(rest)
    requires front != [] ==> !Violates(front[0], Pooled(k + 1, x))
    ensures Weighted([Singleton(Pair(x, 0))] + rest)
    ensures PoolFrom(WithHit(front, k, x, [Singleton(Pair(x, 0))] + rest), |front|)
         == PoolFrom(WithHit(front, k + 1, x, rest), |front|)
  {
    PoolsTheMiss(front, k, x, rest);
    var i, blocks, next := |front|, WithHit(front, k, x, [Singleton(Pair(x, 0))] + rest), WithHit(front, k + 1, x, rest);
    assert blocks[i] == Pooled(k, x) && blocks[i + 1] == Singleton(Pair(x, 0));
    HitBeatsMiss(k, x);
    if i == 1 { assert next[0] == front[0] && next[1] == Pooled(k + 1, x); }
  }

  /** A pooled hit takes in the misses behind it, as long as the block before it lets it. */
  lemma {:induction false} TakesInMisses(front: seq<Block>, k: nat, z: nat, rest: seq<Pair>, x: real)
    requires 0 < k && k + z <= EXACT_LIMIT && |front| <= 1 && Weighted(front)
    requires forall j :: k < j <= k + z && front != [] ==> !Violates(front[0], Pooled(j, x))
    ensures Weighted(Singletons(Misses(z, x) + rest)) && Weighted(Singletons(rest))
    ensures PoolFrom(WithHit(front, k, x, Singletons(Misses(z, x) + rest)), |front|)
         == PoolFrom(WithHit(front, k + z, x, Singletons(rest)), |front|)
    decreases z
  {
    SingletonsWeighted(rest);
    SingletonsWeighted(Misses(z, x) + rest);
    if z == 0 {
      assert Misses(z, x) + rest == rest;
    } else {
      var later := Misses(z - 1, x) + rest;
      assert Misses(z, x) + rest == [Pair(x, 0)] + later;
      SingletonsOfMore(Pair(x, 0), later);
      SingletonsWeighted(later);
      TakesInOne(front, k, x, Singletons(later));
      TakesInMisses(front, k + 1, z - 1, rest, x);
    }
  }

  /** Two hits, with misses behind them that make two pools whose means differ by less than the tolerance. */
  function NearPools(w: nat, more: nat, x: real): (s: seq<Pair>)
    requires 0 < w
    ensures |s| == 2 * w + 1 + more && Sorted(s)
  {
    [Pair(x, 1)] + (Misses(w - 1, x) + ([Pair(x, 1)] + (Misses(w, x) + Hits(more, x))))
  }

  lemma {:induction false} NearPoolsDoNotViolate(w: nat, j: nat, x: real)
    requires w == 1_000_000 && 0 < j <= w + 1
    ensures !Violates(Pooled(w, x), Pooled(j, x))
  {
    ViolatesScaled(Pooled(w, x), Pooled(j, x));
  }

  lemma {:induction false} HitsSettle(a: Block, b: Block, more: nat, x: real)
    requires 0 < a.weight && 0 < b.weight && a.sumY == b.sumY == 1 && !Violates(a, b)
    ensures Weighted([a, b] + Singletons(Hits(more, x))) && Settled([a, b] + Singletons(Hits(more, x)))
  {
    var hits, one := Singletons(Hits(more, x)), Pooled(1, x);
    EqualSingletons(Hits(more, x), Pair(x, 1));
    ViolatesScaled(b, one);
    ViolatesScaled(one, one);
  }

  lemma {:induction false} OpensWithHit(s: seq<Pair>, x: real)
    ensures Weighted(Singletons(s)) && Singletons([Pair(x, 1)] + s) == WithHit([], 1, x, Singletons(s))
  {
    SingletonsOfMore(Pair(x, 1), s);
    SingletonsWeighted(s);
  }

  lemma {:induction false} FirstPool(w: nat, more: nat, x: real)
    requires 0 < w <= EXACT_LIMIT
    ensures var rest := [Pair(x, 1)] + (Misses(w, x) + Hits(more, x));
      Weighted([Pooled(w, x)] + Singletons(rest)) && Pav(NearPools(w, more, x)) == PoolFrom([Pooled(w, x)] + Singletons(rest), 0)
  {
    var rest := [Pair(x, 1)] + (Misses(w, x) + Hits(more, x));
    SortedIsFixed(NearPools(w, more, x));
    OpensWithHit(Misses(w - 1, x) + rest, x);
    TakesInMisses([], 1, w - 1, rest, x);
    assert WithHit([], w, x, Singletons(rest)) == [Pooled(w, x)] + Singletons(rest);
  }

  lemma {:induction false} MovesOn(a: Block, rest: seq<Pair>, x: real)
    requires 0 < a.weight && !Violates(a, Pooled(1, x))
    ensures Weighted(Singletons(rest)) && Weighted([a] + Singletons([Pair(x, 1)] + rest))
    ensures PoolFrom([a] + Singletons([Pair(x, 1)] + rest), 0) == PoolFrom(WithHit([a], 1, x, Singletons(rest)), 1)
  {
    SingletonsOfMore(Pair(x, 1), rest);
    SingletonsWeighted(rest);
    assert [a] + Singletons([Pair(x, 1)] + rest) == WithHit([a], 1, x, Singletons(rest));
  }

  /** The loop leaves the two pools side by side, the left mean above the right one. */
  lemma {:induction false} NearPoolsStay(w: nat, more: nat, x: real)
    requires w == 1_000_000
    ensures Pav(NearPools(w, more, x)) == [Pooled(w, x), Pooled(w + 1, x)] + Singletons(Hits(more, x))
  {
    var hits := Hits(more, x);
    var a, b, behind := Pooled(w, x), Pooled(w + 1, x), Misses(w, x) + hits;
    FirstPool(w, more, x);
    forall j | 0 < j <= w + 1 ensures !Violates(a, Pooled(j, x)) { NearPoolsDoNotViolate(w, j, x); }
    MovesOn(a, behind, x);
    TakesInMisses([a], 1, w, hits, x);
    HitsSettle(a, b, more, x);
    assert WithHit([a], w + 1, x, Singletons(hits)) == [a, b] + Singletons(hits);
    SettledStays([a, b] + Singletons(hits), 1);
  }

  ghost predicate Rises(blocks: seq<Block>) {
    Weighted(blocks) && MeansRise(blocks)
  }

  /** The means of every fit of `n` pairs rise exactly when `n` is within the limit. */
  lemma {:induction false} FitsRiseIff(n: nat)
    ensures (forall pairs: seq<Pair> | |pairs| == n :: Rises(Pav(pairs))) <==> n <= EXACT_LIMIT
  {
    if n <= EXACT_LIMIT {
      forall pairs: seq<Pair> | |pairs| == n ensures Rises(Pav(pairs)) {
        if pairs != [] {
          PavFits(pairs);
          FitMeansRise(Pav(pairs), pairs);
        }
      }
    } else {
      var w: nat :| w == 1_000_000;
      var x := 0.5;
      var pairs := NearPools(w, n - 2 * w - 1, x);
      NearPoolsStay(w, n - 2 * w - 1, x);
      QuotientsCross(1, w, 1, w + 1);
      assert Mean(Pav(pairs)[0]) > Mean(Pav(pairs)[1]);
    }
  }
}
