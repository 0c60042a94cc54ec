/** What a fitted calibrator answers: the value the isotonic regression gives to the observations. */
module IsotonicAnswers {
  import CalibrationMetrics
  import opened IsotonicCalibration
  import opened IsotonicOptimality

  /** `r` is `x` moved to the nearer end of [0.01, 0.99] if it lies outside. */
  predicate IsCut(r: real, x: real) {
    r == if x < 0.01 then 0.01 else if x > 0.99 then 0.99 else x
  }

  /** The block that pools observation `j`. */
  function BlockOf(blocks: seq<Block>, j: nat): (k: nat)
    requires j < TotalWeight(blocks)
    ensures k < |blocks|
  {
    if j < blocks[0].weight then 0 else 1 + BlockOf(blocks[1..], j - blocks[0].weight)
  }

  lemma {:induction false} FittedInBlock(blocks: seq<Block>, j: nat)
    requires Weighted(blocks) && j < TotalWeight(blocks)
    ensures |Fitted(blocks)| == TotalWeight(blocks)
    ensures Fitted(blocks)[j] == Mean(blocks[BlockOf(blocks, j)])
  {
    var w := blocks[0].weight;
    FittedLength(blocks[1..]);
    if j >= w { FittedInBlock(blocks[1..], j - w); }
  }

  lemma {:induction false} FittedLength(blocks: seq<Block>)
    requires Weighted(blocks)
    ensures |Fitted(blocks)| == TotalWeight(blocks)
  {
    if blocks != [] { FittedLength(blocks[1..]); }
  }

  /** The pool of an observation covers its score, and the pools before it end where earlier observations do. */
  lemma {:induction false} BlockCovers(blocks: seq<Block>, s: seq<Pair>, j: nat, p: real)
    requires Partitions(blocks, s) && Sorted(s) && j < |s| == TotalWeight(blocks) && forall i :: 0 <= i < j ==> s[i].p < p
    ensures var k := BlockOf(blocks, j);
      blocks[k].minX <= s[j].p <= blocks[k].maxX && forall h :: 0 <= h < k ==> blocks[h].maxX < p
  {
    var w := blocks[0].weight;
    if j >= w {
      BlockCovers(blocks[1..], s[w..], j - w, p);
      assert blocks[0].maxX == s[w - 1].p < p;
      assert forall h :: 0 < h < |blocks| ==> blocks[h] == blocks[1..][h - 1];
    }
  }

  /** Where the ranges of the pools lie among the sorted scores. */
  lemma {:induction false} RangesAmongScores(blocks: seq<Block>, s: seq<Pair>)
    requires Partitions(blocks, s) && Sorted(s) && s != [] && |s| == TotalWeight(blocks)
    ensures Weighted(blocks) && blocks != [] && |Fitted(blocks)| == |s|
    ensures blocks[0].minX == s[0].p && Fitted(blocks)[0] == Mean(blocks[0])
    ensures blocks[|blocks| - 1].maxX == s[|s| - 1].p && Fitted(blocks)[|s| - 1] == Mean(blocks[|blocks| - 1])
    ensures forall k :: 0 <= k < |blocks| ==> s[0].p <= blocks[k].minX && blocks[k].maxX <= s[|s| - 1].p
  {
    PartitionWeights(blocks, s);
    RangesSideBySide(blocks, s);
    var last := |s| - 1;
    LastBlock(blocks, s);
    FittedInBlock(blocks, 0);
    FittedInBlock(blocks, last);
    forall k | 0 <= k < |blocks| ensures blocks[k].maxX <= s[last].p {
      if k < |blocks| - 1 { assert blocks[k].maxX <= blocks[|blocks| - 1].minX; }
    }
  }

  lemma {:induction false} LastBlock(blocks: seq<Block>, s: seq<Pair>)
    requires Partitions(blocks, s) && s != [] && |s| == TotalWeight(blocks)
    ensures BlockOf(blocks, |s| - 1) == |blocks| - 1 && blocks[|blocks| - 1].maxX == s[|s| - 1].p
  {
    var w := blocks[0].weight;
    if w < |s| { LastBlock(blocks[1..], s[w..]); }
  }

  /** The block answers with the cut mean when it holds the score and none before it does. */
  lemma {:induction false} FirstHolderAnswers(blocks: seq<Block>, p: real, k: nat)
    requires Weighted(blocks) && k < |blocks| && blocks[k].minX <= p <= blocks[k].maxX
    requires forall h :: 0 <= h < k ==> blocks[h].maxX < p
    ensures IsCut(Calibrated(blocks, p), Mean(blocks[k]))
  {
    assert Hit(blocks, p, 0) == k;
  }

  lemma {:induction false} OutsideAnswers(blocks: seq<Block>, p: real)
    requires Weighted(blocks) && blocks != []
    requires forall k :: 0 <= k < |blocks| ==> !(blocks[k].minX <= p <= blocks[k].maxX)
    ensures IsCut(Calibrated(blocks, p), Mean(blocks[if p < blocks[0].minX then 0 else |blocks| - 1]))
  {
    assert Hit(blocks, p, 0) == |blocks|;
  }

  /** At the first observation of its score, and from there to the next observation of the same pool. */
  lemma {:induction false} ObservedAnswers(blocks: seq<Block>, s: seq<Pair>, j: nat, p: real)
    requires Partitions(blocks, s) && Sorted(s) && j < |s| == TotalWeight(blocks) && Weighted(blocks)
    requires s[j].p <= p <= blocks[BlockOf(blocks, j)].maxX && forall i :: 0 <= i < j ==> s[i].p < p
    ensures |Fitted(blocks)| == |s| && IsCut(Calibrated(blocks, p), Fitted(blocks)[j])
  {
    var k := BlockOf(blocks, j);
    BlockCovers(blocks, s, j, p);
    FittedInBlock(blocks, j);
    FirstHolderAnswers(blocks, p, k);
  }

  /** Two neighbouring observations of different pools leave the scores between them to no pool. */
  lemma {:induction false} BetweenPools(blocks: seq<Block>, s: seq<Pair>, j: nat)
    requires Partitions(blocks, s) && j + 1 < |s| == TotalWeight(blocks)
    ensures var k, m := BlockOf(blocks, j), BlockOf(blocks, j + 1);
      m == k || (m == k + 1 && blocks[k].maxX == s[j].p && blocks[m].minX == s[j + 1].p)
  {
    var w := blocks[0].weight;
    if j >= w {
      BetweenPools(blocks[1..], s[w..], j - w);
    } else if j + 1 == w {
      assert blocks[1..][0].minX == s[w..][0].p;
    }
  }

  lemma {:induction false} GapAnswers(blocks: seq<Block>, p: real)
    requires Weighted(blocks) && InGap(blocks, p)
    requires forall k :: 0 <= k < |blocks| ==> blocks[k].minX <= blocks[k].maxX
    requires forall i, j :: 0 <= i < j < |blocks| ==> blocks[i].maxX <= blocks[j].minX
    ensures IsCut(Calibrated(blocks, p), Mean(blocks[|blocks| - 1]))
  {
    var g :| 0 <= g < |blocks| - 1 && blocks[g].maxX < p < blocks[g + 1].minX;
    forall k | 0 <= k < |blocks| ensures !(blocks[k].minX <= p <= blocks[k].maxX) {
      if k < g { assert blocks[k].maxX <= blocks[g].minX; }
      if k > g + 1 { assert blocks[g + 1].maxX <= blocks[k].minX; }
    }
    if 0 < g { assert blocks[0].maxX <= blocks[g].minX; }
    OutsideAnswers(blocks, p);
  }

  /** The observations and the pools of one fit. */
  ghost predicate Cuts(blocks: seq<Block>, s: seq<Pair>) {
    Partitions(blocks, s) && Sorted(s) && s != [] && |s| == TotalWeight(blocks) && Weighted(blocks)
  }

  lemma {:induction false} AnswerAtScore(blocks: seq<Block>, s: seq<Pair>, j: nat, p: real)
    requires Cuts(blocks, s) && j < |s| && s[j].p == p && (j > 0 ==> s[j - 1].p < p)
    ensures |Fitted(blocks)| == |s| && IsCut(Calibrated(blocks, p), Fitted(blocks)[j])
  {
    forall i | 0 <= i < j ensures s[i].p < p { assert s[i].p <= s[j - 1].p; }
    BlockCovers(blocks, s, j, p);
    ObservedAnswers(blocks, s, j, p);
  }

  lemma {:induction false} AnswerBetween(blocks: seq<Block>, s: seq<Pair>, j: nat, p: real)
    requires Cuts(blocks, s) && j + 1 < |s| && s[j].p < p < s[j + 1].p && !InGap(blocks, p)
    ensures |Fitted(blocks)| == |s| && Fitted(blocks)[j] == Fitted(blocks)[j + 1]
    ensures IsCut(Calibrated(blocks, p), Fitted(blocks)[j])
  {
    var k := BlockOf(blocks, j);
    BetweenPools(blocks, s, j);
    assert k + 1 == |blocks| || !(blocks[k].maxX < p < blocks[k + 1].minX);
    forall i | 0 <= i <= j ensures s[i].p < p { assert s[i].p <= s[j].p; }
    BlockCovers(blocks, s, j + 1, p);
    FittedInBlock(blocks, j);
    FittedInBlock(blocks, j + 1);
    ObservedAnswers(blocks, s, j, p);
  }

  lemma {:induction false} AnswerElsewhere(blocks: seq<Block>, s: seq<Pair>, p: real)
    requires Cuts(blocks, s)
    ensures blocks != [] && |Fitted(blocks)| == |s|
    ensures p < s[0].p ==> IsCut(Calibrated(blocks, p), Fitted(blocks)[0])
    ensures p > s[|s| - 1].p || InGap(blocks, p) ==> IsCut(Calibrated(blocks, p), Fitted(blocks)[|s| - 1])
  {
    RangesAmongScores(blocks, s);
    RangesSideBySide(blocks, s);
    if p < s[0].p || p > s[|s| - 1].p { OutsideAnswers(blocks, p); }
    if InGap(blocks, p) { GapAnswers(blocks, p); }
  }

  lemma {:induction false} FitCuts(blocks: seq<Block>, pairs: seq<Pair>)
    requires FitOf(blocks, pairs) && pairs != []
    ensures Cuts(blocks, StableSort(pairs)) && |StableSort(pairs)| == |pairs|
  {
    StableSortSorts(pairs, 0.0);
    PartitionTotals(blocks, StableSort(pairs));
    PartitionWeights(blocks, StableSort(pairs));
  }

  /**
   * For every list of pairs: the calibrator answers an observed score with the value the regression gives to the first
   * observation of that score, a score between two observations of one pool likewise, a score below all observations like
   * the lowest of them, and a score above all of them or in an open gap like the highest, everything cut to [0.01, 0.99].
   */
  lemma {:induction false} CalibrationAnswersTheRegression(blocks: seq<Block>, pairs: seq<Pair>, p: real)
    requires FitOf(blocks, pairs) && pairs != []
    ensures blocks != [] && Weighted(blocks) && |StableSort(pairs)| == |Fitted(blocks)| == |pairs|
    ensures var s, f, last := StableSort(pairs), Fitted(blocks), |pairs| - 1;
      && (p < s[0].p ==> IsCut(Calibrated(blocks, p), f[0]))
      && (p > s[last].p || InGap(blocks, p) ==> IsCut(Calibrated(blocks, p), f[last]))
      && (forall j :: 0 <= j <= last && s[j].p == p && (j > 0 ==> s[j - 1].p < p) ==> IsCut(Calibrated(blocks, p), f[j]))
      && (forall j :: 0 <= j < last && s[j].p < p < s[j + 1].p && !InGap(blocks, p)
            ==> f[j] == f[j + 1] && IsCut(Calibrated(blocks, p), f[j]))
  {
    var s, last := StableSort(pairs), |pairs| - 1;
    FitCuts(blocks, pairs);
    AnswerElsewhere(blocks, s, p);
    forall j | 0 <= j <= last && s[j].p == p && (j > 0 ==> s[j - 1].p < p)
      ensures IsCut(Calibrated(blocks, p), Fitted(blocks)[j])
    {
      AnswerAtScore(blocks, s, j, p);
    }
    forall j | 0 <= j < last && s[j].p < p < s[j + 1].p && !InGap(blocks, p)
      ensures Fitted(blocks)[j] == Fitted(blocks)[j + 1] && IsCut(Calibrated(blocks, p), Fitted(blocks)[j])
    {
      AnswerBetween(blocks, s, j, p);
    }
  }

  function Scores(s: seq<Pair>): (ps: seq<real>)
    ensures |ps| == |s|
  {
    seq(|s|, i requires 0 <= i < |s| => s[i].p)
  }

  /** The Brier sum of a batch is the squared error of its own scores, the quantity the fit minimises. */
  lemma {:induction false} BrierSumIsSquaredError(s: seq<Pair>)
    ensures CalibrationMetrics.BrierOver(s) == SquaredError(Scores(s), s)
  {
    if s != [] {
      var n := |s| - 1;
      BrierSumIsSquaredError(s[..n]);
      assert Scores(s)[..n] == Scores(s[..n]);
      assert Square(s[n].p - s[n].y as real) == CalibrationMetrics.BrierScore(s[n]);
    }
  }
}
