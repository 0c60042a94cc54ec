/** Reliability bins: counts and sums of predictions and outcomes by tenths of the unit interval. */
module CalibrationMetrics {
  import opened IsotonicCalibration

  datatype Bin = Bin(lower: real, upper: real, count: nat, sumPredicted: real, sumActual: int)

  const BIN_COUNT := 10

  function Squash(p: real): (r: real)
    ensures 0.001 <= r <= 0.999
    ensures r == p || (r == 0.001 > p) || (r == 0.999 < p)
  {
    var lifted := if p > 0.001 then p else 0.001;
    if lifted < 0.999 then lifted else 0.999
  }

  function EmptyBins(): (bins: seq<Bin>)
    ensures |bins| == BIN_COUNT
  {
    seq(BIN_COUNT, i requires 0 <= i < BIN_COUNT => Bin(i as real / 10.0, (i + 1) as real / 10.0, 0, 0.0, 0))
  }

  function BinIndex(p: real): (k: nat)
    ensures k < BIN_COUNT
  {
    var k := (Squash(p) * 10.0).Floor;
    if k < BIN_COUNT - 1 then k else BIN_COUNT - 1
  }

  function Updated(bins: seq<Bin>, r: Pair): (after: seq<Bin>)
    requires |bins| == BIN_COUNT
    ensures |after| == BIN_COUNT
  {
    var k := BinIndex(r.p);
    var b := bins[k];
    bins[k := Bin(b.lower, b.upper, b.count + 1, b.sumPredicted + Squash(r.p), b.sumActual + r.y)]
  }

  /** The bins of a batch of observations. */
  function BinsOver(s: seq<Pair>): (bins: seq<Bin>)
    ensures |bins| == BIN_COUNT
  {
    if s == [] then EmptyBins() else Updated(BinsOver(s[..|s| - 1]), s[|s| - 1])
  }

  /** The clamped score lies in the `k`-th tenth, which does not hold its upper end. */
  predicate InTenth(p: real, k: nat) {
    k as real / 10.0 <= Squash(p) < (k + 1) as real / 10.0
  }

  function InBin(s: seq<Pair>, k: nat): seq<Pair> {
    if s == [] then []
    else InBin(s[..|s| - 1], k) + (if InTenth(s[|s| - 1].p, k) then [s[|s| - 1]] else [])
  }

  function SumP(s: seq<Pair>): real {
    if s == [] then 0.0 else SumP(s[..|s| - 1]) + Squash(s[|s| - 1].p)
  }

  lemma InBinStep(s: seq<Pair>, k: nat)
    requires s != []
    ensures var front, last := InBin(s[..|s| - 1], k), s[|s| - 1];
      if InTenth(last.p, k) then
        && |InBin(s, k)| == |front| + 1
        && SumY(InBin(s, k)) == SumY(front) + last.y && SumP(InBin(s, k)) == SumP(front) + Squash(last.p)
      else InBin(s, k) == front
  {
    var front, last := InBin(s[..|s| - 1], k), s[|s| - 1];
    assert (front + [last])[..|front|] == front;
  }

  lemma BinIndexBounds(p: real, k: nat)
    requires k < BIN_COUNT
    ensures BinIndex(p) == k <==> InTenth(p, k)
  {}

  /** Each bin holds exactly the observations whose score falls in its range. */
  lemma {:induction false} BinsHoldTheirObservations(s: seq<Pair>, k: nat)
    requires k < BIN_COUNT
    ensures var b := BinsOver(s)[k];
      && b.lower == k as real / 10.0 && b.upper == (k + 1) as real / 10.0
      && b.count == |InBin(s, k)| && b.sumActual == SumY(InBin(s, k)) && b.sumPredicted == SumP(InBin(s, k))
  {
    if s != [] {
      BinsHoldTheirObservations(s[..|s| - 1], k);
      InBinStep(s, k);
      BinIndexBounds(s[|s| - 1].p, k);
    }
  }

  /** `n` scores summing to `sum` average within the `k`-th tenth. */
  predicate MeanInTenth(k: nat, n: nat, sum: real) {
    k as real * n as real <= sum * 10.0 <= (k + 1) as real * n as real
  }

  lemma RangeStep(k: nat, n: nat, sum: real, x: real)
    requires MeanInTenth(k, n, sum) && k as real <= x * 10.0 <= k as real + 1.0
    ensures MeanInTenth(k, n + 1, sum + x)
  {
    var a, b, m := k as real, (k + 1) as real, n as real;
    assert a * (m + 1.0) == a * m + a;
    assert b * (m + 1.0) == b * m + b;
  }

  /** The mean prediction of a bin lies in its range, and it counts between none and all of its outcomes. */
  lemma {:induction false} BinMeansLieInRange(s: seq<Pair>, k: nat)
    ensures MeanInTenth(k, |InBin(s, k)|, SumP(InBin(s, k)))
    ensures 0 <= SumY(InBin(s, k)) <= |InBin(s, k)|
  {
    if s == [] {
      assert MeanInTenth(k, 0, 0.0);
    } else {
      var front, last := InBin(s[..|s| - 1], k), s[|s| - 1];
      BinMeansLieInRange(s[..|s| - 1], k);
      InBinStep(s, k);
      if InTenth(last.p, k) {
        RangeStep(k, |front|, SumP(front), Squash(last.p));
      }
    }
  }

  function BrierScore(r: Pair): real {
    (r.p - r.y as real) * (r.p - r.y as real)
  }

  function BrierOver(s: seq<Pair>): real {
    if s == [] then 0.0 else BrierOver(s[..|s| - 1]) + BrierScore(s[|s| - 1])
  }

  /** The logarithmic loss of every observation, as the numerical library gives it. */
  type LossTable = t: imap<Pair, real> | forall r: Pair :: r in t ghost witness imap r: Pair :: 0.0

  function LossOver(loss: LossTable, s: seq<Pair>): real {
    if s == [] then 0.0 else LossOver(loss, s[..|s| - 1]) + loss[s[|s| - 1]]
  }

  /** The loss sum is that of single observations, however a batch is put together. */
  lemma {:induction false} LossAddsUp(loss: LossTable, a: seq<Pair>, b: seq<Pair>)
    ensures LossOver(loss, a + b) == LossOver(loss, a) + LossOver(loss, b)
    ensures |b| == 1 ==> LossOver(loss, b) == loss[b[0]]
  {
    if b == [] {
      assert a + b == a;
    } else {
      var n := |b| - 1;
      LossAddsUp(loss, a, b[..n]);
      assert (a + b)[..|a + b| - 1] == a + b[..n];
      if n == 0 { assert b[..n] == []; }
    }
  }
}

/** Global and per-regime calibration over a bounded ring of observations, refitted now and then. */
module CalibrationState {
  import opened Sequences
  import opened IsotonicCalibration
  import opened CalibrationMetrics
  import opened Wrappers

  const MIN_REFIT := 20
  const MIN_ISOTONIC := 80

  /** The observations still in a ring of `size` slots after `history` was recorded. */
  function Window(history: seq<Pair>, size: nat): (w: seq<Pair>)
    ensures |w| == Min(|history|, size)
  {
    Last(history, size)
  }

  lemma MultipleBound(d: int, size: nat)
    ensures d >= 1 ==> d * size >= size
    ensures d <= -1 ==> d * size <= -(size as int)
  {
    assert d >= 1 ==> (d - 1) * size >= 0;
    assert d <= -1 ==> (d + 1) * size <= 0;
  }

  lemma Remainder(x: nat, q: nat, r: nat, size: nat)
    requires r < size && x == q * size + r
    ensures x % size == r
  {
    MultipleBound(q - x / size, size);
    assert (q - x / size) * size == q * size - x / size * size;
  }

  /** Stepping `d` slots forward in the ring wraps at most once. */
  lemma StepSlots(i: nat, d: nat, size: nat)
    requires d < size
    ensures (i + d) % size == if i % size + d < size then i % size + d else i % size + d - size
  {
    var q, r := i / size, i % size + d;
    if r < size {
      Remainder(i + d, q, r, size);
    } else {
      assert (q + 1) * size == q * size + size;
      Remainder(i + d, q + 1, r - size, size);
    }
  }

  lemma FullTurn(i: nat, size: nat)
    requires 0 < size <= i
    ensures (i - size) % size == i % size
  {
    MultipleBound(i / size, size);
    assert (i / size - 1) * size == i / size * size - size;
    if i / size >= 1 { Remainder(i - size, i / size - 1, i % size, size); }
  }

  /** The slots hold the last observations of `history`, each at its position modulo the ring size. */
  ghost predicate Ring(slots: seq<Option<Pair>>, history: seq<Pair>) {
    && 0 < |slots|
    && forall i :: 0 <= i < |history| && |history| - |slots| <= i ==> slots[i % |slots|] == Some(history[i])
  }

  lemma {:induction false} RingRecords(slots: seq<Option<Pair>>, history: seq<Pair>, r: Pair)
    requires Ring(slots, history)
    ensures Ring(slots[|history| % |slots| := Some(r)], history + [r])
  {
    var size := |slots|;
    forall i | 0 <= i < |history| && |history| + 1 - size <= i ensures i % size != |history| % size {
      StepSlots(i, |history| - i, size);
    }
  }

  lemma {:induction false} RingReadsPartial(slots: seq<Option<Pair>>, history: seq<Pair>, i: nat)
    requires Ring(slots, history) && i < |history| <= |slots|
    ensures slots[i] == Some(history[i])
  {
    Remainder(i, 0, i, |slots|);
  }

  lemma {:induction false} RingReadsFull(slots: seq<Option<Pair>>, history: seq<Pair>, i: nat)
    requires Ring(slots, history) && i < |slots| <= |history|
    ensures (|history| % |slots| + i) % |slots| < |slots|
    ensures slots[(|history| % |slots| + i) % |slots|] == Some(history[|history| - |slots| + i])
  {
    var size := |slots|;
    var start, base := |history| % size, |history| - size;
    FullTurn(|history|, size);
    Remainder(start, 0, start, size);
    StepSlots(base, i, size);
    StepSlots(start, i, size);
    assert slots[(base + i) % size] == Some(history[base + i]);
  }

  /** The running sums are those of the batch `s`. */
  ghost predicate Covers(bins: seq<Bin>, brierSum: real, logLossSum: real, loss: LossTable, s: seq<Pair>) {
    bins == BinsOver(s) && brierSum == BrierOver(s) && logLossSum == LossOver(loss, s)
  }

  lemma {:induction false} CoversOneMore(bins: seq<Bin>, brierSum: real, logLossSum: real, loss: LossTable,
                                         s: seq<Pair>, r: Pair)
    requires Covers(bins, brierSum, logLossSum, loss, s)
    ensures Covers(Updated(bins, r), brierSum + BrierScore(r), logLossSum + loss[r], loss, s + [r])
  {
    assert (s + [r])[..|s|] == s;
  }

  /** A regime calibrator as its callers see it. */
  datatype Regime = Regime(
    history: seq<Pair>,     // everything recorded so far
    dropped: nat,           // how much of it the running sums leave out
    fitOn: seq<Pair>)       // the observations of the last isotonic fit; none before the first

  function NewRegime(): Regime {
    Regime([], 0, [])
  }

  function Recorded(c: Regime, p: real, y: Bit): Regime {
    c.(history := c.history + [Pair(p, y)])
  }

  /** A refit is effective from 20 observations in the ring on; it reaches the isotonic fit from 80 on. */
  function Refitted(c: Regime, size: nat): Regime {
    var w := Window(c.history, size);
    if |w| < MIN_REFIT then c
    else
      var sums := c.(dropped := |c.history| - |w|);
      if |w| < MIN_ISOTONIC then sums else sums.(fitOn := w)
  }

  class RegimeCalibrator {
    const maxPairs: nat
    const loss: LossTable
    const isotonic: IsotonicCalibrator
    const pairs: array<Option<Pair>>
    var writeIdx: nat
    var pairCount: nat
    var bins: seq<Bin>
    var brierSum: real
    var logLossSum: real
    var n: nat
    /** Everything recorded so far. */
    ghost var history: seq<Pair>
    /** How much of the history preceded what the running sums cover. */
    ghost var dropped: nat
    /** The observations of the last isotonic fit. */
    ghost var fitOn: seq<Pair>

    ghost function Repr(): set<object> { {this, isotonic, pairs} }

    ghost predicate RingHolds()
      reads `writeIdx, `pairCount, `history, pairs
    {
      && maxPairs == pairs.Length && Ring(pairs[..], history)
      && writeIdx == |history| && pairCount == Min(|history|, maxPairs)
    }

    ghost predicate SumsCover()
      reads `history, `dropped, `n, `bins, `brierSum, `logLossSum
    {
      && dropped <= |history| && n == |history| - dropped
      && Covers(bins, brierSum, logLossSum, loss, history[dropped..])
    }

    ghost predicate Valid()
      reads `writeIdx, `pairCount, `history, `dropped, `n, `bins, `brierSum, `logLossSum, pairs
    {
      RingHolds() && SumsCover()
    }

    /** The isotonic calibrator holds the fit of `fitOn`; recording touches neither. */
    ghost predicate FitHolds()
      reads `fitOn, isotonic
    {
      && isotonic.Valid() && (isotonic.fitted <==> fitOn != [])
      && isotonic.blocks == (if fitOn == [] then [] else Pav(fitOn))
    }

    ghost function View(): Regime
      reads this
    {
      Regime(history, dropped, fitOn)
    }

    constructor (maxPairs: nat, loss: LossTable)
      requires 0 < maxPairs
      ensures Valid() && FitHolds() && fresh(Repr()) && View() == NewRegime()
      ensures this.maxPairs == maxPairs && this.loss == loss
    {
      this.maxPairs := maxPairs;
      this.loss := loss;
      isotonic := new IsotonicCalibrator();
      pairs := new Option<Pair>[maxPairs](_ => None);
      writeIdx, pairCount, bins, brierSum, logLossSum, n := 0, 0, EmptyBins(), 0.0, 0.0, 0;
      history, dropped, fitOn := [], 0, [];
    }

    /** Append one observation to the ring and to the running sums. */
    method Record(p: real, y: Bit)
      requires Valid()
      modifies `writeIdx, `pairCount, `history, `n, `bins, `brierSum, `logLossSum, pairs
      ensures Valid()
      ensures View() == Recorded(old(View()), p, y)
    {
      ghost var before := history;
      AddToSums(Pair(p, y));
      Write(Pair(p, y));
      assert history[dropped..] == before[dropped..] + [Pair(p, y)];
    }

    method AddToSums(r: Pair)
      requires SumsCover()
      modifies `n, `bins, `brierSum, `logLossSum
      ensures n == old(n) + 1 && Covers(bins, brierSum, logLossSum, loss, history[dropped..] + [r])
    {
      CoversOneMore(bins, brierSum, logLossSum, loss, history[dropped..], r);
      bins := Updated(bins, r);
      brierSum := brierSum + BrierScore(r);
      logLossSum := logLossSum + loss[r];
      n := n + 1;
    }

    /** Overwrite the oldest slot, or the next free one. */
    method Write(r: Pair)
      requires RingHolds()
      modifies `writeIdx, `pairCount, `history, pairs
      ensures RingHolds() && history == old(history) + [r]
    {
      RingRecords(pairs[..], history, r);
      pairs[writeIdx % maxPairs] := Some(r);
      writeIdx := writeIdx + 1;
      if pairCount < maxPairs { pairCount := pairCount + 1; }
      history := history + [r];
    }

    /** Read the ring back, oldest observation first. */
    method PairsArray() returns (out: seq<Pair>)
      requires Valid()
      ensures out == Window(history, maxPairs)
    {
      out := [];
      if pairCount < maxPairs {
        for i := 0 to pairCount
          invariant out == history[..i]
        {
          RingReadsPartial(pairs[..], history, i);
          if pairs[i].Some? { out := out + [pairs[i].value]; }
        }
      } else {
        var start := writeIdx % maxPairs;
        ghost var base := |history| - maxPairs;
        for i := 0 to maxPairs
          invariant out == history[base..base + i]
        {
          RingReadsFull(pairs[..], history, i);
          var item := pairs[(start + i) % maxPairs];
          if item.Some? { out := out + [item.value]; }
        }
      }
    }

    /** Recompute the running sums over the observations still in the ring. */
    method Rebuild(w: seq<Pair>)
      requires w == Window(history, maxPairs)
      modifies `bins, `brierSum, `logLossSum, `n, `dropped
      ensures SumsCover() && dropped == |history| - |w|
    {
      bins := EmptyBins();
      brierSum := 0.0;
      logLossSum := 0.0;
      for i := 0 to |w|
        invariant Covers(bins, brierSum, logLossSum, loss, w[..i])
      {
        CoversOneMore(bins, brierSum, logLossSum, loss, w[..i], w[i]);
        assert w[..i + 1] == w[..i] + [w[i]];
        bins := Updated(bins, w[i]);
        brierSum := brierSum + BrierScore(w[i]);
        logLossSum := logLossSum + loss[w[i]];
      }
      n := |w|;
      dropped := |history| - |w|;
      assert w[..|w|] == w == history[dropped..];
    }

    /** The first half of a refit: with enough data, the running sums restart from the ring. */
    method RefitSums() returns (w: seq<Pair>)
      requires Valid() && FitHolds()
      modifies `n, `bins, `brierSum, `logLossSum, `dropped
      ensures Valid() && FitHolds() && w == Window(history, maxPairs)
      ensures View() == if |w| < MIN_REFIT then old(View()) else old(View()).(dropped := |history| - |w|)
    {
      w := PairsArray();
      if |w| >= MIN_REFIT { Rebuild(w); }
    }

    /** The second half: with more data still, the curve is fitted to the ring. */
    method RefitCurve(w: seq<Pair>)
      requires Valid() && FitHolds()
      modifies isotonic, `fitOn
      ensures Valid() && FitHolds()
      ensures View() == if |w| >= MIN_ISOTONIC then old(View()).(fitOn := w) else old(View())
    {
      if |w| >= MIN_ISOTONIC {
        isotonic.Fit(w);
        fitOn := w;
      }
    }

    /** Refit from the ring when there is enough data: first the running sums, then the two calibrators. */
    method FitOne()
      requires Valid() && FitHolds()
      modifies `n, `bins, `brierSum, `logLossSum, `dropped, `fitOn, isotonic
      ensures Valid() && FitHolds() && View() == Refitted(old(View()), maxPairs)
    {
      var w := RefitSums();
      RefitCurve(w);
    }
  }

  // ---------------------------------------------------------------- the state over all regimes

  /** The distinguished key of the source, `global`, or the name of a regime. */
  datatype RegimeKey = Global | Named(name: string)

  datatype Observation = Observation(raw: real, actual: Bit, regime: RegimeKey)

  /** The regime names in order of creation, oldest first, and what each has seen. */
  datatype State = State(global: Regime, keys: seq<RegimeKey>, byRegime: map<RegimeKey, Regime>, sinceRefit: nat)

  datatype Options = Options(maxPairs: nat, refitEvery: int, maxRegimes: nat)

  ghost predicate WellFormed(s: State, o: Options) {
    && Distinct(s.keys) && (forall k :: k in s.keys <==> k in s.byRegime) && Global !in s.keys
    && |s.keys| <= (if o.maxRegimes > 0 then o.maxRegimes else 1)
  }

  const EMPTY: State := State(NewRegime(), [], map[], 0)

  /** Look up a regime, creating it when missing and evicting the oldest one when the table is full. */
  function WithRegime(s: State, key: RegimeKey, limit: nat): State {
    if key in s.byRegime then s
    else if |s.keys| >= limit && s.keys != [] then
      s.(keys := s.keys[1..] + [key], byRegime := (s.byRegime - {s.keys[0]})[key := NewRegime()])
    else s.(keys := s.keys + [key], byRegime := s.byRegime[key := NewRegime()])
  }

  function RefitAll(s: State, o: Options): State {
    s.(global := Refitted(s.global, o.maxPairs),
       byRegime := map k | k in s.byRegime :: Refitted(s.byRegime[k], o.maxPairs))
  }

  function Counted(s: State, p: real, y: Bit): State {
    s.(global := Recorded(s.global, p, y), sinceRefit := s.sinceRefit + 1)
  }

  function RecordedIn(s: State, key: RegimeKey, p: real, y: Bit): State
    requires key in s.byRegime
  {
    s.(byRegime := s.byRegime[key := Recorded(s.byRegime[key], p, y)])
  }

  function Entered(s: State, x: Observation, o: Options): State {
    var p := Squash(x.raw);
    if x.regime == Global then Counted(s, p, x.actual)
    else RecordedIn(WithRegime(Counted(s, p, x.actual), x.regime, o.maxRegimes), x.regime, p, x.actual)
  }

  function Observed(s: State, x: Observation, o: Options): State {
    var entered := Entered(s, x, o);
    if entered.sinceRefit >= o.refitEvery then RefitAll(entered, o).(sinceRefit := 0) else entered
  }

  lemma {:induction false} WithRegimeKeepsShape(s: State, key: RegimeKey, o: Options)
    requires WellFormed(s, o) && key != Global
    ensures WellFormed(WithRegime(s, key, o.maxRegimes), o) && key in WithRegime(s, key, o.maxRegimes).byRegime
  {}

  lemma {:induction false} EnterKeepsShape(s: State, x: Observation, o: Options)
    requires WellFormed(s, o)
    ensures WellFormed(Entered(s, x, o), o)
  {
    if x.regime != Global { WithRegimeKeepsShape(Counted(s, Squash(x.raw), x.actual), x.regime, o); }
  }

  lemma {:induction false} ObserveKeepsShape(s: State, x: Observation, o: Options)
    requires WellFormed(s, o)
    ensures WellFormed(Entered(s, x, o), o) && WellFormed(Observed(s, x, o), o)
  {
    EnterKeepsShape(s, x, o);
  }

  lemma {:induction false} RefitKeepsShape(s: State, o: Options)
    requires WellFormed(s, o)
    ensures WellFormed(RefitAll(s, o).(sinceRefit := 0), o)
  {}

  /** Refit the first `i` of the named regimes one after the other. */
  function RefitFirst(m: map<RegimeKey, Regime>, ks: seq<RegimeKey>, i: nat, o: Options): (r: map<RegimeKey, Regime>)
    requires i <= |ks|
    ensures r.Keys == m.Keys
  {
    if i == 0 then m
    else
      var t := RefitFirst(m, ks, i - 1, o);
      if ks[i - 1] in t then t[ks[i - 1] := Refitted(t[ks[i - 1]], o.maxPairs)] else t
  }

  lemma {:induction false} RefitFirstAt(m: map<RegimeKey, Regime>, ks: seq<RegimeKey>, i: nat, o: Options, k: RegimeKey)
    requires Distinct(ks) && k in m && i <= |ks|
    ensures RefitFirst(m, ks, i, o)[k] == if k in ks[..i] then Refitted(m[k], o.maxPairs) else m[k]
  {
    if i > 0 {
      RefitFirstAt(m, ks, i - 1, o, k);
      assert ks[..i] == ks[..i - 1] + [ks[i - 1]];
    }
  }

  lemma {:induction false} RefittingEveryKey(s: State, o: Options)
    requires WellFormed(s, o)
    ensures RefitFirst(s.byRegime, s.keys, |s.keys|, o) == RefitAll(s, o).byRegime
  {
    var r := RefitFirst(s.byRegime, s.keys, |s.keys|, o);
    assert s.keys[..|s.keys|] == s.keys;
    forall k | k in s.byRegime ensures r[k] == Refitted(s.byRegime[k], o.maxPairs) {
      RefitFirstAt(s.byRegime, s.keys, |s.keys|, o, k);
    }
  }

  /** The isotonic curve of a regime that has been fitted. */
  function CurveAt(c: Regime, p: real): real
    requires c.fitOn != []
  {
    PavFits(c.fitOn);
    Calibrated(Pav(c.fitOn), p)
  }

  /**
   * Regime curve first, then the global one, then the answers of the regime's and the global logistic calibrator
   * if they are fitted, then the clamped score itself.
   */
  function Answered(s: State, raw: real, regime: RegimeKey, ofRegime: Option<real>, ofGlobal: Option<real>): real {
    var p := Squash(raw);
    if regime in s.byRegime && s.byRegime[regime].fitOn != [] then CurveAt(s.byRegime[regime], p)
    else if s.global.fitOn != [] then CurveAt(s.global, p)
    else if regime in s.byRegime && ofRegime.Some? then ofRegime.value
    else if ofGlobal.Some? then ofGlobal.value
    else p
  }

  function Shrunk(calibrated: real, baseline: real, sampleCount: int): real {
    var share := sampleCount as real / 200.0;
    var conf := if share < 1.0 then share else 1.0;
    Mixed(conf, calibrated, baseline)
  }

  function Mixed(conf: real, calibrated: real, baseline: real): real {
    conf * calibrated + (1.0 - conf) * baseline
  }

  /** The global calibrator is an object with its ring; the named regimes are kept as values. */
  class CalibrationState {
    const options: Options
    const global: RegimeCalibrator
    var keys: seq<RegimeKey>
    var byRegime: map<RegimeKey, Regime>
    var sinceRefit: nat

    ghost function View(): State
      reads this, global
    {
      State(global.View(), keys, byRegime, sinceRefit)
    }

    ghost predicate GlobalHolds()
      reads global, global.isotonic, global.pairs
    {
      global.maxPairs == options.maxPairs && global.Valid() && global.FitHolds()
    }

    ghost predicate Valid()
      reads this, global, global.isotonic, global.pairs
    {
      GlobalHolds() && WellFormed(View(), options)
    }

    constructor (options: Options, loss: LossTable)
      requires 0 < options.maxPairs
      ensures Valid() && fresh(global.Repr()) && View() == EMPTY
      ensures this.options == options && global.loss == loss
    {
      this.options := options;
      global := new RegimeCalibrator(options.maxPairs, loss);
      keys, byRegime, sinceRefit := [], map[], 0;
    }

    /** Recording in a named regime, which is created when missing; the oldest one makes room for it. */
    method RecordIn(regime: RegimeKey, p: real, actual: Bit)
      requires forall k :: k in keys ==> k in byRegime
      modifies `keys, `byRegime
      ensures View() == RecordedIn(WithRegime(old(View()), regime, options.maxRegimes), regime, p, actual)
    {
      if regime !in byRegime {
        if |keys| >= options.maxRegimes && keys != [] {
          byRegime := byRegime - {keys[0]};
          keys := keys[1..];
        }
        byRegime := byRegime[regime := NewRegime()];
        keys := keys + [regime];
      }
      byRegime := byRegime[regime := Recorded(byRegime[regime], p, actual)];
    }

    method RecordGlobally(p: real, actual: Bit)
      requires GlobalHolds()
      modifies `sinceRefit, global, global.pairs
      ensures GlobalHolds() && View() == Counted(old(View()), p, actual)
    {
      global.Record(p, actual);
      sinceRefit := sinceRefit + 1;
    }

    /** The observation is recorded, but nothing is refitted yet. */
    method Enter(raw: real, actual: Bit, regime: RegimeKey)
      requires Valid()
      modifies this, global, global.pairs
      ensures Valid() && View() == Entered(old(View()), Observation(raw, actual, regime), options)
    {
      EnterKeepsShape(View(), Observation(raw, actual, regime), options);
      var p := Squash(raw);
      RecordGlobally(p, actual);
      if regime != Global { RecordIn(regime, p, actual); }
    }

    method Observe(raw: real, actual: Bit, regime: RegimeKey)
      requires Valid()
      modifies this, global, global.isotonic, global.pairs
      ensures Valid()
      ensures View() == Observed(old(View()), Observation(raw, actual, regime), options)
    {
      Enter(raw, actual, regime);
      if sinceRefit >= options.refitEvery { RefitAndRestart(); }
    }

    method Calibrate(raw: real, regime: RegimeKey, ofRegime: Option<real>, ofGlobal: Option<real>) returns (r: real)
      requires Valid()
      ensures r == Answered(View(), raw, regime, ofRegime, ofGlobal)
    {
      var p := Squash(raw);
      if regime in byRegime && byRegime[regime].fitOn != [] { return CurveAt(byRegime[regime], p); }
      if global.isotonic.fitted {
        r := global.isotonic.Calibrate(p);
        return;
      }
      if regime in byRegime && ofRegime.Some? { return ofRegime.value; }
      if ofGlobal.Some? { return ofGlobal.value; }
      return p;
    }

    method CalibrateWithShrinkage(raw: real, regime: RegimeKey, baseline: real, sampleCount: int, ofRegime: Option<real>,
                                  ofGlobal: Option<real>)
      returns (r: real)
      requires Valid()
      ensures r == Shrunk(Answered(View(), raw, regime, ofRegime, ofGlobal), baseline, sampleCount)
    {
      var calibrated := Calibrate(raw, regime, ofRegime, ofGlobal);
      var share := sampleCount as real / 200.0;
      var conf := if share < 1.0 then share else 1.0;
      r := Mixed(conf, calibrated, baseline);
    }

    method RefitAndRestart()
      requires Valid()
      modifies `byRegime, `sinceRefit, global, global.isotonic
      ensures Valid() && View() == RefitAll(old(View()), options).(sinceRefit := 0)
    {
      RefitKeepsShape(View(), options);
      Refit();
      sinceRefit := 0;
    }

    method Refit()
      requires Valid()
      modifies `byRegime, global, global.isotonic
      ensures GlobalHolds() && View() == RefitAll(old(View()), options)
    {
      RefittingEveryKey(View(), options);
      global.FitOne();
      RefitRegimes();
    }

    method RefitRegimes()
      requires forall j :: 0 <= j < |keys| ==> keys[j] in byRegime
      modifies `byRegime
      ensures byRegime == RefitFirst(old(byRegime), keys, |keys|, options)
    {
      for i := 0 to |keys|
        invariant byRegime == RefitFirst(old(byRegime), keys, i, options)
      {
        var key := keys[i];
        byRegime := byRegime[key := Refitted(byRegime[key], options.maxPairs)];
      }
    }
  }

  // ---------------------------------------------------------------- whole runs

  /** The state after observing `xs` from the empty one. */
  function After(xs: seq<Observation>, o: Options): State {
    if xs == [] then EMPTY else Observed(After(xs[..|xs| - 1], o), xs[|xs| - 1], o)
  }

  function Clamped(xs: seq<Observation>): (s: seq<Pair>)
    ensures |s| == |xs| && forall i :: 0 <= i < |xs| ==> s[i] == Pair(Squash(xs[i].raw), xs[i].actual)
  {
    seq(|xs|, i requires 0 <= i < |xs| => Pair(Squash(xs[i].raw), xs[i].actual))
  }

  lemma {:induction false} RunsAreWellFormed(xs: seq<Observation>, o: Options)
    ensures WellFormed(After(xs, o), o)
  {
    if xs != [] {
      RunsAreWellFormed(xs[..|xs| - 1], o);
      ObserveKeepsShape(After(xs[..|xs| - 1], o), xs[|xs| - 1], o);
    }
  }

  /** When the last refit happened, counting observations. */
  function LastRefit(k: nat, every: nat): (t: nat)
    requires every > 0
    ensures t <= k
  {
    k - k % every
  }

  /** What the global calibrator is after the first `t` observations were refitted and the rest only recorded. */
  predicate RefittedAt(c: Regime, s: seq<Pair>, t: nat, size: nat)
    requires t <= |s|
  {
    var w := Window(s[..t], size);
    && c.history == s
    && c.dropped == (if |w| >= MIN_REFIT then t - |w| else 0)
    && c.fitOn == (if |w| >= MIN_ISOTONIC then w else [])
  }

  lemma {:induction false} RecordingKeepsRefit(c: Regime, s: seq<Pair>, t: nat, size: nat, r: Pair)
    requires t <= |s| && RefittedAt(c, s, t, size)
    ensures RefittedAt(Recorded(c, r.p, r.y), s + [r], t, size)
  {
    assert (s + [r])[..t] == s[..t];
  }

  lemma {:induction false} RefittingAdvances(c: Regime, s: seq<Pair>, t: nat, size: nat)
    requires t <= |s| && RefittedAt(c, s, t, size)
    ensures RefittedAt(Refitted(c, size), s, |s|, size)
  {
    assert s[..|s|] == s;
  }

  lemma NextRefit(k: nat, every: nat)
    requires every > 0
    ensures k % every + 1 >= every ==> LastRefit(k + 1, every) == k + 1 && (k + 1) % every == 0
    ensures k % every + 1 < every ==> LastRefit(k + 1, every) == LastRefit(k, every) && (k + 1) % every == k % every + 1
  {
    if every == 1 { assert (k + 1) % 1 == 0; } else { StepSlots(k, 1, every); }
  }

  /** Every how many observations a refit comes; with a setting of zero or less at each of them. */
  function Period(o: Options): (every: nat)
    ensures every > 0
  {
    if o.refitEvery > 1 then o.refitEvery else 1
  }

  ghost predicate OnSchedule(s: State, h: seq<Pair>, o: Options)
  {
    && s.sinceRefit == |h| % Period(o)
    && RefittedAt(s.global, h, LastRefit(|h|, Period(o)), o.maxPairs)
  }

  lemma {:induction false} ScheduleStep(s: State, h: seq<Pair>, x: Observation, o: Options)
    requires OnSchedule(s, h, o)
    ensures OnSchedule(Observed(s, x, o), h + [Pair(Squash(x.raw), x.actual)], o)
  {
    var r, t := Pair(Squash(x.raw), x.actual), LastRefit(|h|, Period(o));
    GlobalStep(s, x, o);
    NextRefit(|h|, Period(o));
    RecordingKeepsRefit(s.global, h, t, o.maxPairs, r);
    RefittingAdvances(Recorded(s.global, r.p, r.y), h + [r], t, o.maxPairs);
  }

  /**
   * Over every run the global calibrator remembers all clamped observations in order, its running sums leave
   * out exactly what the ring had lost at the last refit, and its curve is the fit of the ring at that moment.
   */
  lemma {:induction false} GlobalFollowsTheSchedule(xs: seq<Observation>, o: Options)
    ensures OnSchedule(After(xs, o), Clamped(xs), o)
  {
    if xs == [] {
      StartsOnSchedule(o);
      assert Clamped(xs) == [];
    } else {
      var front, x := xs[..|xs| - 1], xs[|xs| - 1];
      GlobalFollowsTheSchedule(front, o);
      ScheduleStep(After(front, o), Clamped(front), x, o);
      ClampedGrows(xs);
    }
  }

  lemma {:induction false} StartsOnSchedule(o: Options)
    ensures OnSchedule(EMPTY, [], o)
  {}

  lemma {:induction false} ClampedGrows(xs: seq<Observation>)
    requires xs != []
    ensures var x := xs[|xs| - 1]; Clamped(xs) == Clamped(xs[..|xs| - 1]) + [Pair(Squash(x.raw), x.actual)]
  {}

  /** How many observations the running sums leave out after the run `xs`. */
  function Lost(xs: seq<Observation>, o: Options): (k: nat)
    ensures k <= |xs|
  {
    var t := LastRefit(|xs|, Period(o));
    var kept := Min(t, o.maxPairs);
    if kept >= MIN_REFIT then t - kept else 0
  }

  /** The ring's contents when it was refitted last. */
  function LastRing(xs: seq<Observation>, o: Options): seq<Pair>
  {
    Window(Clamped(xs)[..LastRefit(|xs|, Period(o))], o.maxPairs)
  }

  /**
   * Over every run of `observe`: the ring holds exactly the last clamped observations, every one in its slot; bins, Brier
   * sum, loss sum and n are those of a batch over the ring at the last effective refit and everything since; the curve is
   * the fit of the ring at the last refit that had enough of them.
   */
  lemma {:induction false} RingAndSumsFollowTheRun(c: CalibrationState, xs: seq<Observation>)
    requires c.Valid() && c.View() == After(xs, c.options)
    ensures var g, o, all := c.global, c.options, Clamped(xs);
      var batch := all[Lost(xs, o)..];
      && g.pairCount == Min(|xs|, o.maxPairs) && g.writeIdx == |xs| && g.pairs.Length == o.maxPairs > 0
      && (forall i :: 0 <= i < |xs| && |xs| - o.maxPairs <= i ==> g.pairs[i % o.maxPairs] == Some(all[i]))
      && g.bins == BinsOver(batch) && g.brierSum == BrierOver(batch) && g.logLossSum == LossOver(g.loss, batch)
      && g.n == |batch|
      && (if |LastRing(xs, o)| >= MIN_ISOTONIC then g.isotonic.fitted && g.isotonic.blocks == Pav(LastRing(xs, o))
          else !g.isotonic.fitted)
  {
    GlobalFollowsTheSchedule(xs, c.options);
    assert c.global.history == Clamped(xs) && c.global.dropped == Lost(xs, c.options);
    forall i | 0 <= i < |xs| && |xs| - c.options.maxPairs <= i
      ensures c.global.pairs[i % c.options.maxPairs] == Some(Clamped(xs)[i])
    {
      assert c.global.pairs[..][i % c.options.maxPairs] == Some(Clamped(xs)[i]);
    }
  }

  lemma {:induction false} GlobalStep(s: State, x: Observation, o: Options)
    ensures var c, t := Recorded(s.global, Squash(x.raw), x.actual), Observed(s, x, o);
      if s.sinceRefit + 1 >= o.refitEvery
      then t.global == Refitted(c, o.maxPairs) && t.sinceRefit == 0
      else t.global == c && t.sinceRefit == s.sinceRefit + 1
  {}

  function HistoryOf(s: State, key: RegimeKey): seq<Pair> {
    if key in s.byRegime then s.byRegime[key].history else []
  }

  lemma {:induction false} EnteredHistory(s: State, x: Observation, o: Options, key: RegimeKey)
    requires WellFormed(s, o) && key in Entered(s, x, o).byRegime
    ensures HistoryOf(Entered(s, x, o), key)
         == HistoryOf(s, key) + OneOf(x, key)
  {}

  lemma {:induction false} ObservedHistory(s: State, x: Observation, o: Options, key: RegimeKey)
    requires WellFormed(s, o) && key in Observed(s, x, o).byRegime
    ensures HistoryOf(Observed(s, x, o), key)
         == HistoryOf(s, key) + OneOf(x, key)
  {
    EnteredHistory(s, x, o, key);
  }

  function OneOf(x: Observation, key: RegimeKey): seq<Pair> {
    if x.regime == key then [Pair(Squash(x.raw), x.actual)] else []
  }

  /** The clamped observations of one regime, in order. */
  function OfRegime(xs: seq<Observation>, key: RegimeKey): seq<Pair> {
    if xs == [] then [] else OfRegime(xs[..|xs| - 1], key) + OneOf(xs[|xs| - 1], key)
  }

  /** How many observations came before the regime was created for the last time. */
  function Born(xs: seq<Observation>, key: RegimeKey, o: Options): (t: nat)
    ensures t <= |xs|
  {
    if xs == [] then 0
    else
      var front := xs[..|xs| - 1];
      if key in After(front, o).byRegime then Born(front, key, o) else |front|
  }

  lemma {:induction false} OfRegimeGrows(xs: seq<Observation>, x: Observation, t: nat, key: RegimeKey)
    requires t <= |xs|
    ensures OfRegime((xs + [x])[t..], key) == OfRegime(xs[t..], key) + OneOf(x, key)
  {
    var rest := (xs + [x])[t..];
    assert rest[..|rest| - 1] == xs[t..] && rest[|rest| - 1] == x;
  }

  /** The table remembers of a regime exactly its own observations since it was created last. */
  lemma {:induction false} RegimesKeepTheirOwn(xs: seq<Observation>, key: RegimeKey, o: Options)
    requires key in After(xs, o).byRegime
    ensures HistoryOf(After(xs, o), key) == OfRegime(xs[Born(xs, key, o)..], key)
  {
    var front, x := xs[..|xs| - 1], xs[|xs| - 1];
    assert xs == front + [x];
    RunsAreWellFormed(front, o);
    ObservedHistory(After(front, o), x, o, key);
    OfRegimeGrows(front, x, Born(xs, key, o), key);
    if key in After(front, o).byRegime {
      RegimesKeepTheirOwn(front, key, o);
    } else {
      assert front[|front|..] == [];
    }
  }

  /** The regimes named in the run. */
  function Names(xs: seq<Observation>): set<RegimeKey> {
    if xs == [] then {}
    else
      var regime := xs[|xs| - 1].regime;
      Names(xs[..|xs| - 1]) + (if regime == Global then {} else {regime})
  }

  lemma {:induction false} DistinctSize(ks: seq<RegimeKey>, s: set<RegimeKey>)
    requires Distinct(ks) && forall k :: k in ks <==> k in s
    ensures |ks| == |s|
  {
    if ks == [] {
      assert s == {};
    } else {
      var front, last := ks[..|ks| - 1], ks[|ks| - 1];
      assert ks == front + [last];
      DistinctSize(front, s - {last});
    }
  }

  lemma {:induction false} EnteringKeepsAll(s: State, x: Observation, o: Options, names: set<RegimeKey>)
    requires WellFormed(s, o) && s.byRegime.Keys == names
    requires |names + (if x.regime == Global then {} else {x.regime})| <= o.maxRegimes
    ensures Observed(s, x, o).byRegime.Keys == names + (if x.regime == Global then {} else {x.regime})
  {
    DistinctSize(s.keys, names);
    if x.regime != Global && x.regime !in names {
      assert |names + {x.regime}| == |names| + 1;
    }
  }

  lemma {:induction false} NamesGrow(xs: seq<Observation>)
    requires xs != []
    ensures |Names(xs[..|xs| - 1])| <= |Names(xs)|
  {
    var front, regime := Names(xs[..|xs| - 1]), xs[|xs| - 1].regime;
    if regime != Global && regime !in front { assert |front + {regime}| == |front| + 1; }
    assert regime == Global || regime in front ==> Names(xs) == front;
  }

  /** While no more regimes are named than the table holds, none is evicted and each keeps all of its observations. */
  lemma {:induction false} FewRegimesKeepEverything(xs: seq<Observation>, o: Options, key: RegimeKey)
    requires |Names(xs)| <= o.maxRegimes && key != Global
    ensures After(xs, o).byRegime.Keys == Names(xs)
    ensures HistoryOf(After(xs, o), key) == OfRegime(xs, key)
  {
    if xs != [] {
      var front, x := xs[..|xs| - 1], xs[|xs| - 1];
      NamesGrow(xs);
      RunsAreWellFormed(front, o);
      FewRegimesKeepEverything(front, o, key);
      EnteringKeepsAll(After(front, o), x, o, Names(front));
      if key in After(xs, o).byRegime {
        ObservedHistory(After(front, o), x, o, key);
      } else {
        assert x.regime != key;
      }
    }
  }

  // ---------------------------------------------------------------- reading the state

  predicate Between(x: real, a: real, b: real) {
    (a <= x <= b) || (b <= x <= a)
  }

  /** Shrinkage stays between the calibrated value and the baseline exactly for sample counts that are not negative. */
  lemma ShrinkageLiesBetween(calibrated: real, baseline: real, sampleCount: int)
    ensures Between(Shrunk(calibrated, baseline, sampleCount), calibrated, baseline)
      <==> sampleCount >= 0 || calibrated == baseline
  {
    var share := sampleCount as real / 200.0;
    var conf := if share < 1.0 then share else 1.0;
    Blend(conf, calibrated, baseline);
    ScaledGap(conf, calibrated - baseline, conf * (calibrated - baseline));
  }

  lemma Blend(conf: real, a: real, b: real)
    ensures conf * a + (1.0 - conf) * b == b + conf * (a - b)
  {}

  lemma ScaledGap(c: real, gap: real, scaled: real)
    requires scaled == c * gap
    ensures 0.0 <= c <= 1.0 && gap >= 0.0 ==> 0.0 <= scaled <= gap
    ensures 0.0 <= c <= 1.0 && gap <= 0.0 ==> gap <= scaled <= 0.0
    ensures c < 0.0 && gap > 0.0 ==> scaled < 0.0
    ensures c < 0.0 && gap < 0.0 ==> scaled > 0.0
    ensures gap == 0.0 ==> scaled == 0.0
  {
    assert c * gap + (1.0 - c) * gap == gap;
    if 0.0 <= c <= 1.0 && gap >= 0.0 { assert (1.0 - c) * gap >= 0.0; }
    if 0.0 <= c <= 1.0 && gap <= 0.0 { assert (1.0 - c) * gap <= 0.0; }
    if c < 0.0 && gap > 0.0 { assert (-c) * gap > 0.0; }
    if c < 0.0 && gap < 0.0 { assert (-c) * (-gap) > 0.0; }
  }

  function Apart(a: real, b: real): real {
    if a < b then b - a else a - b
  }

  /** The share of the samples a full calibration needs, at most one. */
  function Share(sampleCount: int): real {
    if sampleCount < 200 then sampleCount as real / 200.0 else 1.0
  }

  lemma ShrunkApart(calibrated: real, baseline: real, sampleCount: int, rest: real, gap: real)
    requires rest == 1.0 - Share(sampleCount) && gap == Apart(baseline, calibrated)
    ensures rest >= 0.0 && Apart(Shrunk(calibrated, baseline, sampleCount), calibrated) == rest * gap
  {
    var signed := baseline - calibrated;
    assert Shrunk(calibrated, baseline, sampleCount) - calibrated == rest * signed;
    RestOfGap(rest, signed, rest * signed);
  }

  lemma RestOfGap(rest: real, gap: real, scaled: real)
    requires rest >= 0.0 && scaled == rest * gap
    ensures Apart(scaled, 0.0) == rest * Apart(gap, 0.0)
  {
    if gap < 0.0 { assert rest * (-gap) >= 0.0; } else { assert rest * gap >= 0.0; }
  }

  lemma LessOfGap(rest: real, less: real, gap: real, a: real, b: real)
    requires 0.0 <= less <= rest && gap >= 0.0 && a == rest * gap && b == less * gap
    ensures b <= a && (less < rest && gap > 0.0 ==> b < a)
  {
    var more := rest - less;
    assert a - b == more * gap;
    GapGrows(more, gap, more * gap);
  }

  lemma GapGrows(share: real, gap: real, scaled: real)
    requires share >= 0.0 && gap >= 0.0 && scaled == share * gap
    ensures scaled >= 0.0 && (share > 0.0 && gap > 0.0 ==> scaled > 0.0)
  {}

  lemma ShrunkEnds(calibrated: real, baseline: real, sampleCount: int)
    ensures sampleCount == 0 ==> Shrunk(calibrated, baseline, sampleCount) == baseline
    ensures sampleCount >= 200 ==> Shrunk(calibrated, baseline, sampleCount) == calibrated
  {
    if sampleCount == 0 {
      assert 0.0 * calibrated + (1.0 - 0.0) * baseline == baseline;
    } else if sampleCount >= 200 {
      assert 1.0 * calibrated + (1.0 - 1.0) * baseline == calibrated;
    }
  }

  lemma NearerWithMore(calibrated: real, baseline: real, fewer: int, more: int)
    requires fewer <= more
    ensures Apart(Shrunk(calibrated, baseline, more), calibrated) <= Apart(Shrunk(calibrated, baseline, fewer), calibrated)
    ensures fewer < more && fewer < 200 && calibrated != baseline
      ==> Apart(Shrunk(calibrated, baseline, more), calibrated) < Apart(Shrunk(calibrated, baseline, fewer), calibrated)
  {
    var gap, rest, less := Apart(baseline, calibrated), 1.0 - Share(fewer), 1.0 - Share(more);
    var a, b := Apart(Shrunk(calibrated, baseline, fewer), calibrated), Apart(Shrunk(calibrated, baseline, more), calibrated);
    ShrunkApart(calibrated, baseline, fewer, rest, gap);
    ShrunkApart(calibrated, baseline, more, less, gap);
    LessOfGap(rest, less, gap, a, b);
  }

  /** Without samples the baseline is answered and from 200 on the calibrated value; on the way there every sample brings
      the answer nearer to it. */
  lemma ShrinkageFollowsTheSamples(calibrated: real, baseline: real, fewer: int, more: int)
    requires fewer <= more
    ensures Shrunk(calibrated, baseline, 0) == baseline
    ensures more >= 200 ==> Shrunk(calibrated, baseline, more) == calibrated
    ensures Apart(Shrunk(calibrated, baseline, more), calibrated) <= Apart(Shrunk(calibrated, baseline, fewer), calibrated)
    ensures fewer < more && fewer < 200 && calibrated != baseline
      ==> Apart(Shrunk(calibrated, baseline, more), calibrated) < Apart(Shrunk(calibrated, baseline, fewer), calibrated)
  {
    ShrunkEnds(calibrated, baseline, 0);
    ShrunkEnds(calibrated, baseline, more);
    NearerWithMore(calibrated, baseline, fewer, more);
  }

  /** From the eightieth refitted observation on, every calibrated probability lies in [0.01, 0.99] whatever the regime. */
  lemma {:induction false} WarmCalibrationIsBounded(xs: seq<Observation>, o: Options, raw: real, regime: RegimeKey,
                                                    ofRegime: Option<real>, ofGlobal: Option<real>)
    requires o.maxPairs >= MIN_ISOTONIC && LastRefit(|xs|, Period(o)) >= MIN_ISOTONIC
    ensures 0.01 <= Answered(After(xs, o), raw, regime, ofRegime, ofGlobal) <= 0.99
  {
    GlobalFollowsTheSchedule(xs, o);
  }
}
