/** Isotonic regression by pooling adjacent violators, and the step-function calibrator built from it. */
module IsotonicCalibration {

  /** One observation: a raw score `p` and the outcome `y`. */
  type Bit = b: int | 0 <= b <= 1
  datatype Pair = Pair(p: real, y: Bit)

  /** A pool of consecutive sorted observations. */
  datatype Block = Block(weight: nat, sumY: int, minX: real, maxX: real)

  const MIN_PAIRS := 30
  const TOLERANCE: real := 0.000000000001
  /** The largest sample for which the floating tolerance never hides a violation. */
  const EXACT_LIMIT := 2_000_000

  ghost function Mean(b: Block): (m: real)
    requires b.weight > 0
    ensures m * b.weight as real == b.sumY as real
  {
    b.sumY as real / b.weight as real
  }

  // ---------------------------------------------------------------- sorting

  function Insert(s: seq<Pair>, x: Pair): seq<Pair> {
    if s == [] || s[|s| - 1].p <= x.p then s + [x]
    else Insert(s[..|s| - 1], x) + [s[|s| - 1]]
  }

  /** The stable sort by score that the runtime's array sort performs. */
  function StableSort(s: seq<Pair>): seq<Pair> {
    if s == [] then [] else Insert(StableSort(s[..|s| - 1]), s[|s| - 1])
  }

  predicate Sorted(s: seq<Pair>) {
    forall i, j :: 0 <= i <= j < |s| ==> s[i].p <= s[j].p
  }

  /** The observations with score `p`, in order. */
  function AtScore(s: seq<Pair>, p: real): seq<Pair> {
    if s == [] then []
    else AtScore(s[..|s| - 1], p) + (if s[|s| - 1].p == p then [s[|s| - 1]] else [])
  }

  lemma {:induction false} InsertPermutes(s: seq<Pair>, x: Pair)
    ensures multiset(Insert(s, x)) == multiset(s) + multiset{x}
  {
    if s != [] {
      InsertPermutes(s[..|s| - 1], x);
      assert s == s[..|s| - 1] + [s[|s| - 1]];
    }
  }

  lemma {:induction false} InsertSorts(s: seq<Pair>, x: Pair)
    requires Sorted(s)
    ensures Sorted(Insert(s, x))
  {
    if s != [] && s[|s| - 1].p > x.p {
      var front := s[..|s| - 1];
      var r := Insert(front, x);
      InsertSorts(front, x);
      InsertPermutes(front, x);
      forall i | 0 <= i < |r| ensures r[i].p <= s[|s| - 1].p {
        assert r[i] in multiset(r);
        assert r[i] in front || r[i] == x;
      }
    }
  }

  lemma {:induction false} InsertIsStable(s: seq<Pair>, x: Pair, p: real)
    requires Sorted(s)
    ensures AtScore(Insert(s, x), p) == AtScore(s, p) + (if x.p == p then [x] else [])
  {
    if s == [] || s[|s| - 1].p <= x.p {
      assert (s + [x])[..|s|] == s;
    } else {
      var r := Insert(s[..|s| - 1], x);
      InsertIsStable(s[..|s| - 1], x, p);
      assert (r + [s[|s| - 1]])[..|r|] == r;
      if x.p == p {
        assert AtScore(s, p) == AtScore(s[..|s| - 1], p);
      }
    }
  }

  lemma {:induction false} SortPermutes(s: seq<Pair>)
    ensures multiset(StableSort(s)) == multiset(s) && |StableSort(s)| == |s|
  {
    if s != [] {
      var front := s[..|s| - 1];
      SortPermutes(front);
      InsertPermutes(StableSort(front), s[|s| - 1]);
      assert s == front + [s[|s| - 1]];
    }
    assert |StableSort(s)| == |multiset(StableSort(s))| == |multiset(s)|;
  }

  /** `StableSort` sorts, permutes, and keeps the order of observations with equal scores. */
  lemma {:induction false} StableSortSorts(s: seq<Pair>, p: real)
    ensures Sorted(StableSort(s)) && multiset(StableSort(s)) == multiset(s) && |StableSort(s)| == |s|
    ensures AtScore(StableSort(s), p) == AtScore(s, p)
  {
    SortPermutes(s);
    if s != [] {
      var front := s[..|s| - 1];
      StableSortSorts(front, p);
      InsertSorts(StableSort(front), s[|s| - 1]);
      InsertIsStable(StableSort(front), s[|s| - 1], p);
    }
  }

  // ---------------------------------------------------------------- partitions

  function SumY(s: seq<Pair>): int {
    if s == [] then 0 else SumY(s[..|s| - 1]) + s[|s| - 1].y
  }

  lemma {:induction false} SumYAppend(a: seq<Pair>, b: seq<Pair>)
    ensures SumY(a + b) == SumY(a) + SumY(b)
  {
    if b == [] {
      assert a + b == a;
    } else {
      assert (a + b)[..|a + b| - 1] == a + b[..|b| - 1];
      SumYAppend(a, b[..|b| - 1]);
    }
  }

  /** Every proper nonempty prefix of `s` averages strictly more than the whole of `s`. */
  ghost predicate FallingBlock(s: seq<Pair>) {
    forall k :: 0 < k < |s| ==> SumY(s[..k]) * |s| > SumY(s) * k
  }

  /** Block `b` is the pool of exactly the observations `s`. */
  ghost predicate Pools(b: Block, s: seq<Pair>) {
    && 0 < b.weight == |s|
    && b.sumY == SumY(s)
    && b.minX == s[0].p && b.maxX == s[|s| - 1].p
    && FallingBlock(s)
  }

  /** The blocks cut `s` into consecutive pools, in order and without remainder. */
  ghost predicate Partitions(blocks: seq<Block>, s: seq<Pair>) {
    if blocks == [] then s == []
    else
      && blocks[0].weight <= |s|
      && Pools(blocks[0], s[..blocks[0].weight])
      && Partitions(blocks[1..], s[blocks[0].weight..])
  }

  /** The loop's test: the left mean exceeds the right one by more than the tolerance. */
  predicate Violates(a: Block, b: Block)
    requires a.weight > 0 && b.weight > 0
  {
    a.sumY as real / a.weight as real > b.sumY as real / b.weight as real + TOLERANCE
  }

  function Pool(a: Block, b: Block): Block {
    Block(a.weight + b.weight, a.sumY + b.sumY, a.minX, b.maxX)
  }

  lemma {:induction false} QuotientsCross(s1: int, w1: nat, s2: int, w2: nat)
    requires w1 > 0 && w2 > 0
    ensures (s1 as real / w1 as real > s2 as real / w2 as real) <==> s1 * w2 > s2 * w1
  {
    var m1, m2 := s1 as real / w1 as real, s2 as real / w2 as real;
    var r1, r2 := w1 as real, w2 as real;
    assert m1 * r1 == s1 as real && m2 * r2 == s2 as real;
    assert (s1 * w2) as real == m1 * (r1 * r2);
    assert (s2 * w1) as real == m2 * (r1 * r2);
    assert r1 * r2 > 0.0;
    if m1 > m2 {
      assert m1 * (r1 * r2) > m2 * (r1 * r2);
    } else {
      assert m1 * (r1 * r2) <= m2 * (r1 * r2);
    }
  }

  lemma {:induction false} PrefixInLeft(pk: int, k: int, s1: int, w1: int, s2: int, w2: int)
    requires 0 < k <= w1 && 0 < w2
    requires s1 * w2 > s2 * w1 && pk * w1 >= s1 * k
    ensures pk * (w1 + w2) > (s1 + s2) * k
  {
    assert pk * w1 * w2 >= s1 * k * w2 by { assert pk * w1 * w2 == (pk * w1) * w2; }
    assert s1 * k * w2 == (s1 * w2) * k > (s2 * w1) * k == (s2 * k) * w1;
    assert (pk * w2) * w1 == pk * w1 * w2;
    assert pk * w2 > s2 * k;
  }

  lemma {:induction false} PrefixInRightSplit(qj: int, j: int, s1: int, w1: int, s2: int, w2: int)
    ensures (s1 + qj) * (w1 + w2) - (s1 + s2) * (w1 + j)
         == (s1 * (w2 - j) - s2 * w1 + qj * w1) + (qj * w2 - s2 * j)
  {}

  lemma {:induction false} PrefixInRightScaled(qj: int, j: int, s1: int, w1: int, s2: int, w2: int)
    ensures w2 * (s1 * (w2 - j) - s2 * w1 + qj * w1)
         == (w2 - j) * (s1 * w2 - s2 * w1) + w1 * (qj * w2 - s2 * j)
  {}

  lemma {:induction false} PositiveFactor(c: int, e: int, a: int, b: int, u: int, v: int)
    requires c > 0 && a > 0 && b > 0 && u >= 0 && v >= 0
    requires c * e == a * b + u * v
    ensures e > 0
  {
    assert a * b > 0 && u * v >= 0;
  }

  lemma {:induction false} PrefixInRight(qj: int, j: int, s1: int, w1: int, s2: int, w2: int)
    requires 0 < w1 && 0 <= j < w2
    requires s1 * w2 > s2 * w1 && qj * w2 >= s2 * j
    ensures (s1 + qj) * (w1 + w2) > (s1 + s2) * (w1 + j)
  {
    PrefixInRightSplit(qj, j, s1, w1, s2, w2);
    PrefixInRightScaled(qj, j, s1, w1, s2, w2);
    PositiveFactor(w2, s1 * (w2 - j) - s2 * w1 + qj * w1, w2 - j, s1 * w2 - s2 * w1, w1, qj * w2 - s2 * j);
  }

  /** Every nonempty prefix of a pool averages at least the pool's mean. */
  lemma {:induction false} PrefixAtLeast(s: seq<Pair>, k: nat)
    requires FallingBlock(s) && k <= |s|
    ensures SumY(s[..k]) * |s| >= SumY(s) * k
  {
    if k == |s| { assert s[..k] == s; }
  }

  lemma {:induction false} PooledPrefixLeft(s1: seq<Pair>, s2: seq<Pair>, k: nat)
    requires FallingBlock(s1) && SumY(s1) * |s2| > SumY(s2) * |s1|
    requires 0 < k <= |s1| && s2 != []
    ensures SumY((s1 + s2)[..k]) * (|s1| + |s2|) > (SumY(s1) + SumY(s2)) * k
  {
    assert (s1 + s2)[..k] == s1[..k];
    PrefixAtLeast(s1, k);
    PrefixInLeft(SumY(s1[..k]), k, SumY(s1), |s1|, SumY(s2), |s2|);
  }

  lemma {:induction false} PooledPrefixRight(s1: seq<Pair>, s2: seq<Pair>, j: nat)
    requires FallingBlock(s2) && SumY(s1) * |s2| > SumY(s2) * |s1|
    requires s1 != [] && j < |s2|
    ensures SumY((s1 + s2)[..|s1| + j]) * (|s1| + |s2|) > (SumY(s1) + SumY(s2)) * (|s1| + j)
  {
    assert (s1 + s2)[..|s1| + j] == s1 + s2[..j];
    SumYAppend(s1, s2[..j]);
    PrefixAtLeast(s2, j);
    PrefixInRight(SumY(s2[..j]), j, SumY(s1), |s1|, SumY(s2), |s2|);
  }

  lemma {:induction false} PooledFalls(s1: seq<Pair>, s2: seq<Pair>)
    requires s1 != [] && s2 != [] && FallingBlock(s1) && FallingBlock(s2)
    requires SumY(s1) * |s2| > SumY(s2) * |s1|
    ensures FallingBlock(s1 + s2)
  {
    SumYAppend(s1, s2);
    var n, total := |s1| + |s2|, SumY(s1) + SumY(s2);
    assert |s1 + s2| == n && SumY(s1 + s2) == total;
    forall k | 0 < k < n ensures SumY((s1 + s2)[..k]) * n > total * k {
      if k <= |s1| {
        PooledPrefixLeft(s1, s2, k);
      } else {
        PooledPrefixRight(s1, s2, k - |s1|);
      }
    }
  }

  lemma {:induction false} PoolingPools(a: Block, b: Block, s1: seq<Pair>, s2: seq<Pair>)
    requires Pools(a, s1) && Pools(b, s2) && Violates(a, b)
    ensures Pools(Pool(a, b), s1 + s2)
  {
    QuotientsCross(a.sumY, a.weight, b.sumY, b.weight);
    PooledFalls(s1, s2);
    SumYAppend(s1, s2);
  }

  predicate Weighted(blocks: seq<Block>) {
    forall k :: 0 <= k < |blocks| ==> 0 < blocks[k].weight
  }

  /** What one iteration of the pooling loop does to the block list. */
  function PoolAt(blocks: seq<Block>, i: nat): seq<Block>
    requires i + 1 < |blocks|
  {
    blocks[..i] + [Pool(blocks[i], blocks[i + 1])] + blocks[i + 2..]
  }

  lemma {:induction false} PartitionWeights(blocks: seq<Block>, s: seq<Pair>)
    requires Partitions(blocks, s)
    ensures Weighted(blocks)
  {
    if blocks != [] {
      PartitionWeights(blocks[1..], s[blocks[0].weight..]);
      assert forall k :: 0 < k < |blocks| ==> blocks[k] == blocks[1..][k - 1];
    }
  }

  /** Pooling an adjacent violating pair keeps the list a partition of the same observations. */
  lemma {:induction false} PoolAtKeepsPartition(blocks: seq<Block>, s: seq<Pair>, i: nat)
    requires Partitions(blocks, s) && i + 1 < |blocks|
    requires blocks[i].weight > 0 && blocks[i + 1].weight > 0
    requires Violates(blocks[i], blocks[i + 1])
    ensures Partitions(PoolAt(blocks, i), s)
  {
    var w := blocks[0].weight;
    var rest := s[w..];
    if i == 0 {
      var w2 := blocks[1].weight;
      PoolingPools(blocks[0], blocks[1], s[..w], rest[..w2]);
      assert s[..w] + rest[..w2] == s[..w + w2];
      assert rest[w2..] == s[w + w2..];
      assert PoolAt(blocks, 0)[1..] == blocks[1..][1..];
    } else {
      PoolAtKeepsPartition(blocks[1..], rest, i - 1);
      assert PoolAt(blocks, i)[1..] == PoolAt(blocks[1..], i - 1);
    }
  }

  /** The first `i` blocks have no violation with their right neighbour. */
  ghost predicate SettledBefore(blocks: seq<Block>, i: nat)
    requires i < |blocks| && Weighted(blocks)
  {
    forall k :: 0 <= k < i ==> !Violates(blocks[k], blocks[k + 1])
  }

  lemma {:induction false} PoolingStep(blocks: seq<Block>, s: seq<Pair>, i: nat)
    requires Partitions(blocks, s) && i + 1 < |blocks| && Weighted(blocks)
    requires SettledBefore(blocks, i) && Violates(blocks[i], blocks[i + 1])
    ensures Partitions(PoolAt(blocks, i), s) && Weighted(PoolAt(blocks, i))
    ensures SettledBefore(PoolAt(blocks, i), if i > 0 then i - 1 else 0)
  {
    PoolAtKeepsPartition(blocks, s, i);
    PartitionWeights(PoolAt(blocks, i), s);
    assert forall k :: 0 <= k < i ==> PoolAt(blocks, i)[k] == blocks[k];
  }

  function Singleton(r: Pair): Block {
    Block(1, r.y, r.p, r.p)
  }

  function Singletons(s: seq<Pair>): seq<Block> {
    if s == [] then [] else [Singleton(s[0])] + Singletons(s[1..])
  }

  lemma {:induction false} SingletonsPartition(s: seq<Pair>)
    ensures Partitions(Singletons(s), s) && |Singletons(s)| == |s|
  {
    if s != [] {
      SingletonsPartition(s[1..]);
      assert s[..1] == [s[0]] && [s[0]][..0] == [];
      assert SumY(s[..1]) == s[0].y;
    }
  }

  /** No adjacent pair of blocks is a violation for the loop's test. */
  ghost predicate Settled(blocks: seq<Block>) {
    forall k :: 0 <= k < |blocks| - 1 && 0 < blocks[k].weight && 0 < blocks[k + 1].weight
      ==> !Violates(blocks[k], blocks[k + 1])
  }

  /** The pooling loop from position `i` on. */
  function PoolFrom(blocks: seq<Block>, i: nat): seq<Block>
    requires Weighted(blocks)
    decreases 2 * |blocks| - i
  {
    if i + 1 >= |blocks| then blocks
    else if Violates(blocks[i], blocks[i + 1]) then PoolFrom(PoolAt(blocks, i), if i > 0 then i - 1 else 0)
    else PoolFrom(blocks, i + 1)
  }

  lemma {:induction false} SingletonsWeighted(s: seq<Pair>)
    ensures Weighted(Singletons(s))
  {
    if s != [] { SingletonsWeighted(s[1..]); }
  }

  /** Pool adjacent violators over the stably sorted pairs. */
  function Pav(pairs: seq<Pair>): seq<Block> {
    SingletonsWeighted(StableSort(pairs));
    PoolFrom(Singletons(StableSort(pairs)), 0)
  }

  /** What a fit of `pairs` has to be. */
  ghost predicate FitOf(blocks: seq<Block>, pairs: seq<Pair>) {
    Partitions(blocks, StableSort(pairs)) && Settled(blocks)
  }

  lemma {:induction false} PoolFromSettles(blocks: seq<Block>, s: seq<Pair>, i: nat)
    requires Partitions(blocks, s) && Weighted(blocks) && i < |blocks| && SettledBefore(blocks, i)
    ensures Partitions(PoolFrom(blocks, i), s) && Settled(PoolFrom(blocks, i)) && Weighted(PoolFrom(blocks, i))
    decreases 2 * |blocks| - i
  {
    if i + 1 < |blocks| {
      if Violates(blocks[i], blocks[i + 1]) {
        PoolingStep(blocks, s, i);
        PoolFromSettles(PoolAt(blocks, i), s, if i > 0 then i - 1 else 0);
      } else {
        PoolFromSettles(blocks, s, i + 1);
      }
    }
  }

  /** The loop ends with a partition of the sorted pairs into pools, no neighbouring two of which violate the order. */
  lemma {:induction false} PavFits(pairs: seq<Pair>)
    requires pairs != []
    ensures FitOf(Pav(pairs), pairs) && Weighted(Pav(pairs)) && Pav(pairs) != []
  {
    var s := StableSort(pairs);
    StableSortSorts(pairs, 0.0);
    SingletonsPartition(s);
    SingletonsWeighted(s);
    PoolFromSettles(Singletons(s), s, 0);
  }

  // ---------------------------------------------------------------- the calibrator

  function Clamp(x: real): (r: real)
    ensures 0.01 <= r <= 0.99
    ensures 0.01 <= x <= 0.99 ==> r == x
  {
    var lifted := if x > 0.01 then x else 0.01;
    if lifted < 0.99 then lifted else 0.99
  }

  /** Index of the first block at or after `k` whose score range holds `p`, or the number of blocks. */
  function Hit(blocks: seq<Block>, p: real, k: nat): (h: nat)
    requires k <= |blocks|
    ensures k <= h <= |blocks|
    ensures h < |blocks| ==> blocks[h].minX <= p <= blocks[h].maxX
    ensures forall j :: k <= j < h ==> !(blocks[j].minX <= p <= blocks[j].maxX)
    decreases |blocks| - k
  {
    if k == |blocks| then k
    else if p >= blocks[k].minX && p <= blocks[k].maxX then k
    else Hit(blocks, p, k + 1)
  }

  /** The index of the block whose mean answers a query at `p`. */
  function Chosen(blocks: seq<Block>, p: real): (k: nat)
    requires blocks != []
    ensures k < |blocks|
  {
    var h := Hit(blocks, p, 0);
    if h < |blocks| then h
    else if p < blocks[0].minX then 0
    else |blocks| - 1
  }

  function Level(blocks: seq<Block>, k: nat): real
    requires k < |blocks| && Weighted(blocks)
  {
    Clamp(blocks[k].sumY as real / blocks[k].weight as real)
  }

  function Calibrated(blocks: seq<Block>, p: real): real
    requires blocks != [] && Weighted(blocks)
  {
    Level(blocks, Chosen(blocks, p))
  }

  class IsotonicCalibrator {
    var blocks: seq<Block>
    var fitted: bool
    var sampleCount: nat

    predicate Valid() reads this {
      Weighted(blocks) && (fitted <==> blocks != [])
    }

    constructor ()
      ensures Valid() && !fitted && blocks == [] && sampleCount == 0
    {
      blocks, fitted, sampleCount := [], false, 0;
    }

    /** Pool adjacent violators over the stably sorted pairs; too few pairs unfit the calibrator. */
    method Fit(pairs: seq<Pair>)
      requires Valid()
      modifies this
      ensures Valid()
      ensures |pairs| < MIN_PAIRS ==> !fitted && blocks == [] && sampleCount == old(sampleCount)
      ensures |pairs| >= MIN_PAIRS ==> fitted && blocks == Pav(pairs) && sampleCount == |pairs|
    {
      if |pairs| < MIN_PAIRS {
        fitted := false;
        blocks := [];
        return;
      }
      var sorted := StableSort(pairs);
      PavFits(pairs);
      SingletonsWeighted(sorted);
      var pools := Singletons(sorted);
      var i := 0;
      while i < |pools| - 1
        invariant 0 <= i && Weighted(pools)
        invariant PoolFrom(pools, i) == Pav(pairs)
        decreases 2 * |pools| - i
      {
        if Violates(pools[i], pools[i + 1]) {
          pools := pools[..i] + [Pool(pools[i], pools[i + 1])] + pools[i + 2..];
          if i > 0 { i := i - 1; }
        } else {
          i := i + 1;
        }
      }
      blocks := pools;
      fitted := |pools| > 0;
      sampleCount := |pairs|;
    }

    /** Look a score up among the blocks; an unfitted calibrator is the identity. */
    method Calibrate(p: real) returns (r: real)
      requires Valid()
      ensures r == if fitted then Calibrated(blocks, p) else p
    {
      if !fitted || |blocks| == 0 { return p; }
      for k := 0 to |blocks|
        invariant Hit(blocks, p, 0) == Hit(blocks, p, k)
      {
        var b := blocks[k];
        if p >= b.minX && p <= b.maxX {
          return Clamp(b.sumY as real / b.weight as real);
        }
      }
      if p < blocks[0].minX {
        return Clamp(blocks[0].sumY as real / blocks[0].weight as real);
      }
      var last := blocks[|blocks| - 1];
      return Clamp(last.sumY as real / last.weight as real);
    }
  }
}
