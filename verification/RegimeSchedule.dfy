/** The named regimes over whole runs: what their curves are fitted on, who is evicted, and which curve answers. */
module RegimeSchedule {
  import opened CalibrationMetrics
  import opened CalibrationState
  import opened IsotonicCalibration
  import opened IsotonicOptimality
  import opened Sequences
  import opened Wrappers

  /** How many of the observations from `born` up to `t` are those of the regime. */
  function OwnUpTo(xs: seq<Observation>, key: RegimeKey, born: nat, t: nat): nat
    requires t <= |xs|
  {
    if t > born then |OfRegime(xs[born..t], key)| else 0
  }

  /** How many observations of the regime the last refit of the run has seen since the regime was created last. */
  function RefittedOwn(xs: seq<Observation>, key: RegimeKey, o: Options): nat {
    OwnUpTo(xs, key, Born(xs, key, o), LastRefit(|xs|, Period(o)))
  }

  lemma {:induction false} OwnUpToEarlier(front: seq<Observation>, x: Observation, key: RegimeKey, born: nat, t: nat)
    requires t <= |front|
    ensures OwnUpTo(front + [x], key, born, t) == OwnUpTo(front, key, born, t)
  {
    if t > born { assert (front + [x])[born..t] == front[born..t]; }
  }

  lemma {:induction false} OwnUpToEnd(xs: seq<Observation>, key: RegimeKey, born: nat)
    requires born <= |xs|
    ensures OwnUpTo(xs, key, born, |xs|) == |OfRegime(xs[born..], key)|
  {
    assert xs[born..|xs|] == xs[born..];
  }

  /** One more observation, for a regime of the table that is there before and after. */
  lemma {:induction false} KnownRegimeStep(s: State, x: Observation, o: Options, key: RegimeKey, h: seq<Pair>, t: nat)
    requires WellFormed(s, o) && key in s.byRegime && key in Observed(s, x, o).byRegime
    requires t <= |h| && RefittedAt(s.byRegime[key], h, t, o.maxPairs)
    ensures var more := h + OneOf(x, key);
      RefittedAt(Observed(s, x, o).byRegime[key], more, if s.sinceRefit + 1 >= o.refitEvery then |more| else t, o.maxPairs)
  {
    var entered, more := Entered(s, x, o), h + OneOf(x, key);
    if x.regime == key {
      RecordingKeepsRefit(s.byRegime[key], h, t, o.maxPairs, Pair(Squash(x.raw), x.actual));
    } else {
      assert more == h;
    }
    RefittingAdvances(entered.byRegime[key], more, t, o.maxPairs);
  }

  lemma {:induction false} NewRegimeStep(s: State, x: Observation, o: Options, key: RegimeKey)
    requires WellFormed(s, o) && key !in s.byRegime && key in Observed(s, x, o).byRegime
    ensures x.regime == key
    ensures var more := OneOf(x, key);
      RefittedAt(Observed(s, x, o).byRegime[key], more, if s.sinceRefit + 1 >= o.refitEvery then |more| else 0, o.maxPairs)
  {
    var entered, r := Entered(s, x, o), Pair(Squash(x.raw), x.actual);
    assert [] + [r] == [r];
    RecordingKeepsRefit(NewRegime(), [], 0, o.maxPairs, r);
    RefittingAdvances(entered.byRegime[key], [r], 0, o.maxPairs);
  }

  lemma {:induction false} RefitComes(xs: seq<Observation>, x: Observation, o: Options)
    ensures var k, every := |xs|, Period(o);
      if After(xs, o).sinceRefit + 1 >= o.refitEvery then LastRefit(k + 1, every) == k + 1
      else LastRefit(k + 1, every) == LastRefit(k, every)
  {
    GlobalFollowsTheSchedule(xs, o);
    NextRefit(|xs|, Period(o));
  }

  lemma {:induction false} RefittedOwnStep(front: seq<Observation>, x: Observation, key: RegimeKey, o: Options)
    requires key in After(front + [x], o).byRegime
    ensures var xs, s := front + [x], After(front, o);
      var own := OfRegime(xs[Born(xs, key, o)..], key);
      RefittedOwn(xs, key, o)
      == if s.sinceRefit + 1 >= o.refitEvery then |own| else if key in s.byRegime then RefittedOwn(front, key, o) else 0
  {
    var xs, s := front + [x], After(front, o);
    assert xs[..|xs| - 1] == front;
    RefitComes(front, x, o);
    if s.sinceRefit + 1 >= o.refitEvery {
      OwnUpToEnd(xs, key, Born(xs, key, o));
    } else {
      OwnUpToEarlier(front, x, key, Born(xs, key, o), LastRefit(|front|, Period(o)));
    }
  }

  lemma {:induction false} OwnGrows(front: seq<Observation>, x: Observation, key: RegimeKey, o: Options)
    ensures var xs := front + [x];
      OfRegime(xs[Born(xs, key, o)..], key)
      == (if key in After(front, o).byRegime then OfRegime(front[Born(front, key, o)..], key) else []) + OneOf(x, key)
  {
    var xs := front + [x];
    assert xs[..|xs| - 1] == front;
    OfRegimeGrows(front, x, Born(xs, key, o), key);
    if key !in After(front, o).byRegime { assert front[|front|..] == []; }
  }

  /** Over every run a named regime remembers its own observations since it was created last, its sums leave out what its
      ring had lost at the last refit, and its curve is the fit of that ring. */
  lemma {:induction false} RegimesFollowTheSchedule(xs: seq<Observation>, key: RegimeKey, o: Options)
    requires key in After(xs, o).byRegime
    ensures var own := OfRegime(xs[Born(xs, key, o)..], key);
      RefittedOwn(xs, key, o) <= |own| && RefittedAt(After(xs, o).byRegime[key], own, RefittedOwn(xs, key, o), o.maxPairs)
  {
    var front, x := xs[..|xs| - 1], xs[|xs| - 1];
    var s := After(front, o);
    assert xs == front + [x];
    RunsAreWellFormed(front, o);
    RefittedOwnStep(front, x, key, o);
    OwnGrows(front, x, key, o);
    if key in s.byRegime {
      RegimesFollowTheSchedule(front, key, o);
      KnownRegimeStep(s, x, o, key, OfRegime(front[Born(front, key, o)..], key), RefittedOwn(front, key, o));
    } else {
      assert [] + OneOf(x, key) == OneOf(x, key);
      NewRegimeStep(s, x, o, key);
    }
  }

  // ---------------------------------------------------------------- eviction

  lemma {:induction false} AgesCarryOver(xs: seq<Observation>, o: Options)
    requires xs != []
    ensures var front, regime := xs[..|xs| - 1], xs[|xs| - 1].regime;
      var before, after := After(front, o), After(xs, o);
      && (forall k :: k in before.byRegime ==> Born(xs, k, o) == Born(front, k, o))
      && (forall k :: k !in before.byRegime ==> Born(xs, k, o) == |front|)
      && (after.keys == before.keys
          || (after.keys == before.keys + [regime] && regime !in before.byRegime)
          || (before.keys != [] && after.keys == before.keys[1..] + [regime] && regime !in before.byRegime
              && |before.keys| >= o.maxRegimes))
  {}

  ghost predicate ByAge(xs: seq<Observation>, keys: seq<RegimeKey>, o: Options) {
    && (forall i :: 0 <= i < |keys| ==> Born(xs, keys[i], o) < |xs|)
    && (forall i, j :: 0 <= i < j < |keys| ==> Born(xs, keys[i], o) < Born(xs, keys[j], o))
  }

  /** A list stays ordered by age when the youngest is added behind and possibly the first one dropped. */
  lemma {:induction false} AgesStep(xs: seq<Observation>, before: seq<RegimeKey>, regime: RegimeKey, first: nat, o: Options)
    requires xs != [] && ByAge(xs[..|xs| - 1], before, o) && first <= |before|
    requires forall k :: k in before ==> Born(xs, k, o) == Born(xs[..|xs| - 1], k, o)
    ensures ByAge(xs, before, o)
    ensures Born(xs, regime, o) == |xs| - 1 ==> ByAge(xs, before[first..] + [regime], o)
  {
    forall i | 0 <= i < |before| ensures Born(xs, before[i], o) == Born(xs[..|xs| - 1], before[i], o) {
      assert before[i] in before;
    }
    var after := before[first..] + [regime];
    assert forall i :: 0 <= i < |after| - 1 ==> after[i] == before[first + i];
  }

  /** The table lists its regimes in the order of their creation. */
  lemma {:induction false} KeysByAge(xs: seq<Observation>, o: Options)
    ensures ByAge(xs, After(xs, o).keys, o)
  {
    if xs != [] {
      var front, regime := xs[..|xs| - 1], xs[|xs| - 1].regime;
      var before := After(front, o).keys;
      KeysByAge(front, o);
      RunsAreWellFormed(front, o);
      AgesCarryOver(xs, o);
      AgesStep(xs, before, regime, 0, o);
      assert before[0..] == before;
      if before != [] { AgesStep(xs, before, regime, 1, o); }
    }
  }

  /** A regime only leaves the table when a new one needs its place, and then it is the one created longest ago. */
  lemma {:induction false} OldestRegimeMakesRoom(xs: seq<Observation>, key: RegimeKey, other: RegimeKey, o: Options)
    requires xs != [] && key in After(xs[..|xs| - 1], o).byRegime && key !in After(xs, o).byRegime
    ensures var front, regime := xs[..|xs| - 1], xs[|xs| - 1].regime;
      var before := After(front, o);
      && regime !in before.byRegime && regime in After(xs, o).byRegime
      && |before.byRegime| >= o.maxRegimes
      && (other in before.byRegime && other != key ==> Born(front, key, o) < Born(front, other, o))
      && (other in before.byRegime && other != key ==> other in After(xs, o).byRegime)
  {
    var front := xs[..|xs| - 1];
    var before := After(front, o);
    RunsAreWellFormed(front, o);
    RunsAreWellFormed(xs, o);
    AgesCarryOver(xs, o);
    KeysByAge(front, o);
    DistinctSize(before.keys, before.byRegime.Keys);
    assert key in before.keys;
    if other in before.byRegime {
      var i :| 0 <= i < |before.keys| && before.keys[i] == other;
      assert i > 0 ==> before.keys[1..][i - 1] == other;
    }
  }

  // ---------------------------------------------------------------- which curve answers

  /** A score outside [0.001, 0.999] is moved to its nearer end. */
  function Cut(x: real): real {
    if x < 0.001 then 0.001 else if x > 0.999 then 0.999 else x
  }

  /** The answer of a regression over `pairs`, whatever blocks describe it. */
  ghost predicate AnswersLike(r: real, pairs: seq<Pair>, p: real) {
    pairs != []
    && forall blocks | FitOf(blocks, pairs) && blocks != [] && Weighted(blocks) :: r == Calibrated(blocks, p)
  }

  lemma {:induction false} CurveIsTheRegression(c: Regime, p: real)
    requires c.fitOn != [] && |c.fitOn| <= EXACT_LIMIT
    ensures AnswersLike(CurveAt(c, p), c.fitOn, p)
  {
    PavFits(c.fitOn);
    forall blocks | FitOf(blocks, c.fitOn) && blocks != [] && Weighted(blocks) ensures CurveAt(c, p) == Calibrated(blocks, p) {
      FitIsDetermined(blocks, Pav(c.fitOn), c.fitOn);
    }
  }

  /** The observations of the regime's ring at the last refit, none if the regime is not in the table. */
  function OwnRing(xs: seq<Observation>, key: RegimeKey, o: Options): seq<Pair> {
    if key !in After(xs, o).byRegime then []
    else
      RegimesFollowTheSchedule(xs, key, o);
      Window(OfRegime(xs[Born(xs, key, o)..], key)[..RefittedOwn(xs, key, o)], o.maxPairs)
  }

  /**
   * After every run: eighty of the regime's own observations at the last refit make its regression answer; otherwise eighty
   * observations of all regimes make the global one answer; otherwise the logistic answers are used, the regime's before the
   * global one's, and without any the score itself. Scores are cut to [0.001, 0.999] first.
   */
  lemma {:induction false} CalibrationOrder(xs: seq<Observation>, o: Options, raw: real, regime: RegimeKey,
                                            ofRegime: Option<real>, ofGlobal: Option<real>)
    requires o.maxPairs <= EXACT_LIMIT
    ensures var own, all, known := OwnRing(xs, regime, o), LastRing(xs, o), regime in After(xs, o).byRegime;
      var r := Answered(After(xs, o), raw, regime, ofRegime, ofGlobal);
      if |own| >= 80 then AnswersLike(r, own, Cut(raw))
      else if |all| >= 80 then AnswersLike(r, all, Cut(raw))
      else if known && ofRegime.Some? then r == ofRegime.value
      else if ofGlobal.Some? then r == ofGlobal.value
      else r == Cut(raw)
  {
    var s := After(xs, o);
    GlobalFollowsTheSchedule(xs, o);
    if regime in s.byRegime {
      RegimesFollowTheSchedule(xs, regime, o);
      if s.byRegime[regime].fitOn != [] { CurveIsTheRegression(s.byRegime[regime], Cut(raw)); }
    }
    if s.global.fitOn != [] { CurveIsTheRegression(s.global, Cut(raw)); }
  }
}
