/** What the adaptive state remembers: its buckets and error windows, told from the updates of the run alone. */
module OnlineHistory {
  import opened OnlineState
  import opened Sequences
  import CalibrationMetrics

  /** The prediction of an update, cut to [0.01, 0.99]. */
  function Prediction(u: Update): real {
    if u.psi < 0.01 then 0.01 else if u.psi > 0.99 then 0.99 else u.psi
  }

  function Outcome(u: Update): int {
    if u.crashPoint >= 1.3 then 1 else 0
  }

  /** The prediction falls in the `k`-th tenth of the unit interval, which does not hold its upper end. */
  predicate FallsIn(u: Update, k: nat) {
    k as real <= Prediction(u) * 10.0 < (k + 1) as real
  }

  /** The updates whose prediction falls in the `k`-th tenth. */
  function Those(us: seq<Update>, k: nat): seq<Update> {
    if us == [] then [] else (if FallsIn(us[0], k) then [us[0]] else []) + Those(us[1..], k)
  }

  function Hits(us: seq<Update>): int {
    if us == [] then 0 else Outcome(us[0]) + Hits(us[1..])
  }

  function Predicted(us: seq<Update>): real {
    if us == [] then 0.0 else Prediction(us[0]) + Predicted(us[1..])
  }

  function SquaredError(u: Update): real {
    (Prediction(u) - Outcome(u) as real) * (Prediction(u) - Outcome(u) as real)
  }

  /** The squared errors of the predictions, in order. */
  function Errors(us: seq<Update>): seq<real> {
    if us == [] then [] else [SquaredError(us[0])] + Errors(us[1..])
  }

  function Length(limit: int): nat { if limit > 0 then limit else 0 }

  lemma {:induction false} BinIsTenth(u: Update, k: nat)
    requires k < CalibrationMetrics.BIN_COUNT
    ensures ClampPsi(u.psi) == Prediction(u)
    ensures FallsIn(u, k) <==> k == Bin(ClampPsi(u.psi))
  {}

  lemma {:induction false} ThoseOfMore(us: seq<Update>, k: nat)
    requires us != []
    ensures var rest, here := Those(us[1..], k), FallsIn(us[0], k);
      && |Those(us, k)| == |rest| + (if here then 1 else 0)
      && Hits(Those(us, k)) == Hits(rest) + (if here then Outcome(us[0]) else 0)
      && Predicted(Those(us, k)) == Predicted(rest) + (if here then Prediction(us[0]) else 0.0)
  {
    var rest := Those(us[1..], k);
    if FallsIn(us[0], k) { assert ([us[0]] + rest)[1..] == rest; } else { assert [] + rest == rest; }
  }

  lemma {:induction false} BucketsGrow(s: Online, us: seq<Update>, w: Windows, k: nat)
    requires |s.weights| == MODELS && |s.buckets| == CalibrationMetrics.BIN_COUNT && AllScored(us)
    requires k < CalibrationMetrics.BIN_COUNT
    ensures |UpdatedAll(s, us, w).buckets| == CalibrationMetrics.BIN_COUNT
    ensures var b, t, those := s.buckets[k], UpdatedAll(s, us, w).buckets[k], Those(us, k);
      && t.count == b.count + |those|
      && t.sumActual == b.sumActual + Hits(those)
      && t.sumPredicted == b.sumPredicted + Predicted(those)
    decreases |us|
  {
    if us != [] {
      var next := Updated(s, us[0], w);
      BinIsTenth(us[0], k);
      ThoseOfMore(us, k);
      BucketsGrow(next, us[1..], w, k);
    }
  }

  /** In every run from the initial state a bucket has counted the updates whose prediction falls in its tenth, and summed
      their predictions and their hits. */
  lemma {:induction false} BucketsHoldTheirUpdates(us: seq<Update>, w: Windows, k: nat)
    requires AllScored(us) && k < CalibrationMetrics.BIN_COUNT
    ensures |UpdatedAll(Initial(), us, w).buckets| == CalibrationMetrics.BIN_COUNT
    ensures var b, those := UpdatedAll(Initial(), us, w).buckets[k], Those(us, k);
      b.count == |those| && b.sumActual == Hits(those) && b.sumPredicted == Predicted(those)
  {
    BucketsGrow(Initial(), us, w, k);
  }

  lemma {:induction false} PushedIsLast(errors: seq<real>, x: real, limit: int)
    ensures Pushed(Last(errors, Length(limit)), x, limit) == Last(errors + [x], Length(limit))
  {}

  ghost predicate WindowsEnd(s: Online, errors: seq<real>, w: Windows) {
    s.recentErrors == Last(errors, Length(w.short)) && s.longErrors == Last(errors, Length(w.long))
  }

  lemma {:induction false} ErrorOfUpdate(s: Online, u: Update, w: Windows)
    requires |s.weights| == |u.scores| && |s.buckets| == CalibrationMetrics.BIN_COUNT
    ensures Updated(s, u, w).recentErrors == Pushed(s.recentErrors, SquaredError(u), w.short)
    ensures Updated(s, u, w).longErrors == Pushed(s.longErrors, SquaredError(u), w.long)
  {
    var residual := Prediction(u) - Outcome(u) as real;
    BinIsTenth(u, 0);
    assert SquaredError(u) == Square(residual);
  }

  lemma {:induction false} UpdatePushes(s: Online, u: Update, w: Windows, errors: seq<real>)
    requires |s.weights| == |u.scores| && |s.buckets| == CalibrationMetrics.BIN_COUNT && WindowsEnd(s, errors, w)
    ensures WindowsEnd(Updated(s, u, w), errors + [SquaredError(u)], w)
  {
    ErrorOfUpdate(s, u, w);
    PushedIsLast(errors, SquaredError(u), w.short);
    PushedIsLast(errors, SquaredError(u), w.long);
  }

  lemma {:induction false} WindowsGrow(s: Online, errors: seq<real>, us: seq<Update>, w: Windows)
    requires |s.weights| == MODELS && |s.buckets| == CalibrationMetrics.BIN_COUNT && AllScored(us)
    requires WindowsEnd(s, errors, w)
    ensures WindowsEnd(UpdatedAll(s, us, w), errors + Errors(us), w)
    decreases |us|
  {
    if us == [] {
      assert errors + [] == errors;
    } else {
      var one := [SquaredError(us[0])];
      UpdatePushes(s, us[0], w, errors);
      WindowsGrow(Updated(s, us[0], w), errors + one, us[1..], w);
      Regroup(errors, one, Errors(us[1..]));
    }
  }

  /** In every run from the initial state both windows are the last squared errors of the run, in order. */
  lemma {:induction false} WindowsHoldTheLastErrors(us: seq<Update>, w: Windows)
    requires AllScored(us)
    ensures WindowsEnd(UpdatedAll(Initial(), us, w), Errors(us), w)
  {
    WindowsGrow(Initial(), [], us, w);
    assert [] + Errors(us) == Errors(us);
  }

  // ---------------------------------------------------------------- the weights

  /** What an update makes of a weight before the weights are normalised. */
  function Rewarded(weight: real, score: real): real {
    var raw := weight * (0.88 + 0.12 * score);
    if raw < 0.06 then 0.06 else if raw > 0.32 then 0.32 else raw
  }

  lemma {:induction false} InProportion(a: real, b: real, total: real, x: real, y: real)
    requires total > 0.0 && x == a / total && y == b / total
    ensures x * b == y * a
  {
    assert x * total == a && y * total == b;
    assert x * b == x * (y * total) == y * (x * total);
  }

  lemma {:induction false} RewardedAreAdapted(weights: seq<real>, scores: seq<real>, i: nat)
    requires |weights| == |scores| && i < |weights|
    ensures AllAdapted(weights, scores)[i] == Rewarded(weights[i], scores[i])
  {}

  lemma {:induction false} AdaptedArePositive(weights: seq<real>, scores: seq<real>)
    requires |weights| == |scores| && weights != []
    ensures Sum(AllAdapted(weights, scores)) > 0.0
  {
    SumBetween(AllAdapted(weights, scores), W_FLOOR, W_CEIL);
  }

  lemma {:induction false} SumIsOne(ws: seq<real>, total: real)
    requires total == Sum(ws) > 0.0
    ensures Sum(Scaled(ws, total)) == 1.0
  {
    SumScaled(ws, total);
    assert total / total == 1.0;
  }

  lemma {:induction false} NextAt(weights: seq<real>, scores: seq<real>, i: nat, a: real, total: real)
    requires |weights| == |scores| && i < |weights|
    requires a == AllAdapted(weights, scores)[i] && total == Sum(AllAdapted(weights, scores))
    ensures total > 0.0 && |NextWeights(weights, scores)| == |weights| && NextWeights(weights, scores)[i] == a / total
  {
    AdaptedArePositive(weights, scores);
  }

  /** After an update the weights add up to one. */
  lemma {:induction false} WeightsAddUp(weights: seq<real>, scores: seq<real>)
    requires |weights| == |scores| && weights != []
    ensures |NextWeights(weights, scores)| == |weights| && Sum(NextWeights(weights, scores)) == 1.0
  {
    AdaptedArePositive(weights, scores);
    SumIsOne(AllAdapted(weights, scores), Sum(AllAdapted(weights, scores)));
  }

  /** After an update two weights `x` and `y` stand to each other as the rewarded old ones `a` and `b`. */
  lemma {:induction false} WeightsFollowTheScores(weights: seq<real>, scores: seq<real>, i: nat, j: nat, a: real, b: real,
                                                  x: real, y: real)
    requires |weights| == |scores| == |NextWeights(weights, scores)| && i < |weights| && j < |weights|
    requires a == Rewarded(weights[i], scores[i]) && b == Rewarded(weights[j], scores[j])
    requires x == NextWeights(weights, scores)[i] && y == NextWeights(weights, scores)[j]
    ensures x * b == y * a
  {
    var total := Sum(AllAdapted(weights, scores));
    RewardedAreAdapted(weights, scores, i);
    RewardedAreAdapted(weights, scores, j);
    NextAt(weights, scores, i, a, total);
    NextAt(weights, scores, j, b, total);
    InProportion(a, b, total, x, y);
  }
}
