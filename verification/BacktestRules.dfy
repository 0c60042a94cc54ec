/** Which signals are entered: the six risk rules, told from the rounds, the signals and the decisions before. */
module BacktestRules {
  import opened BacktestEngine

  /** The signal's own part of the rules. */
  predicate Convincing(s: Signal, c: Config) {
    s.live && s.probability >= c.threshold && s.confidence >= c.minConfidence
  }

  /** The drawdown from the peak has reached the limit. */
  predicate AtLimit(equity: real, peak: real, c: Config) {
    if peak > 0.0 then (peak - equity) * 100.0 >= c.maxDrawdownPct * peak else c.maxDrawdownPct <= 0.0
  }

  /** The entries among the decisions just before the `k`-th, as far back as the rounds are of that day. */
  function EntriesToday(rounds: seq<Round>, ds: seq<Decision>, k: nat, day: string): nat
    requires k <= |ds| && MIN_HISTORY + |ds| <= |rounds|
  {
    if k == 0 || rounds[MIN_HISTORY + k - 1].day != day then 0
    else EntriesToday(rounds, ds, k - 1, day) + (if Entered(ds[k - 1]) then 1 else 0)
  }

  function Signaled(rounds: seq<Round>, i: nat, p: Predictor): Signal
    requires i < |rounds|
  {
    p(rounds[..i], rounds[i])
  }

  lemma {:induction false} DecisionsExtend(rounds: seq<Round>, n: nat, m: nat, p: Predictor, balance: real, c: Config)
    requires m <= n <= |rounds|
    ensures DecisionsTo(rounds, m, p, balance, c) <= DecisionsTo(rounds, n, p, balance, c)
  {
    if m < n { DecisionsExtend(rounds, n - 1, m, p, balance, c); }
  }

  lemma {:induction false} DecisionsListed(rounds: seq<Round>, k: nat, ds: seq<Decision>, p: Predictor, balance: real, c: Config)
    requires MIN_HISTORY + |ds| == |rounds| && k < |ds| && ds == DecisionsTo(rounds, |rounds|, p, balance, c)
    ensures ds[k] == DecisionAt(rounds, MIN_HISTORY + k, p, balance, c)
    ensures ds[..k] == DecisionsTo(rounds, MIN_HISTORY + k, p, balance, c)
  {
    var i := MIN_HISTORY + k;
    DecisionsExtend(rounds, |rounds|, i + 1, p, balance, c);
    assert DecisionsTo(rounds, i + 1, p, balance, c) == DecisionsTo(rounds, i, p, balance, c) + [DecisionAt(rounds, i, p, balance, c)];
  }

  lemma {:induction false} TodayStep(l: Ledger, r: Round, s: Signal, day: string, balance: real, c: Config)
    ensures NewDay(Played(l, r, s, balance, c), day).dailyEntries
         == if r.day != day then 0
            else NewDay(l, day).dailyEntries + (if Entered(Decided(l, r, s, balance, c)) then 1 else 0)
  {}

  /** The counter has seen the entries of the day. */
  lemma {:induction false} CounterIsToday(rounds: seq<Round>, k: nat, day: string, ds: seq<Decision>, p: Predictor, balance: real,
                                          c: Config)
    requires MIN_HISTORY + |ds| == |rounds| && k <= |ds| && ds == DecisionsTo(rounds, |rounds|, p, balance, c)
    ensures NewDay(LedgerAt(rounds, MIN_HISTORY + k, p, balance, c), day).dailyEntries == EntriesToday(rounds, ds, k, day)
  {
    if k > 0 {
      var i := MIN_HISTORY + k - 1;
      var l, s := LedgerAt(rounds, i, p, balance, c), Signaled(rounds, i, p);
      DecisionsListed(rounds, k - 1, ds, p, balance, c);
      TodayStep(l, rounds[i], s, day, balance, c);
      assert LedgerAt(rounds, i + 1, p, balance, c) == Played(l, rounds[i], s, balance, c);
      if rounds[i].day == day { CounterIsToday(rounds, k - 1, day, ds, p, balance, c); }
    }
  }

  lemma {:induction false} PrefixAccounts(balance: real, ds: seq<Decision>, k: nat, j: nat)
    requires j <= k <= |ds|
    ensures EquityAfter(balance, ds[..k], j) == EquityAfter(balance, ds, j)
    ensures PeakAfter(balance, ds[..k], j) == PeakAfter(balance, ds, j)
  {
    assert ds[..k][..j] == ds[..j];
    if j > 0 { PrefixAccounts(balance, ds, k, j - 1); }
  }

  lemma {:induction false} LimitInPercent(equity: real, peak: real, c: Config)
    ensures DrawdownPct(equity, peak) >= c.maxDrawdownPct <==> AtLimit(equity, peak, c)
  {
    if peak > 0.0 {
      var share := (peak - equity) / peak;
      assert share * peak == peak - equity;
      InOrder(share * 100.0, c.maxDrawdownPct, peak);
    }
  }

  lemma {:induction false} InOrder(x: real, y: real, scale: real)
    requires scale > 0.0
    ensures x >= y <==> x * scale >= y * scale
  {
    if x >= y { assert (x - y) * scale >= 0.0; } else { assert (y - x) * scale > 0.0; }
  }

  /** The account and the counter before the `k`-th decision, told from the decisions before it. */
  lemma {:induction false} LedgerBefore(rounds: seq<Round>, k: nat, ds: seq<Decision>, p: Predictor, balance: real, c: Config)
    requires MIN_HISTORY + |ds| == |rounds| && k < |ds| && ds == DecisionsTo(rounds, |rounds|, p, balance, c)
    ensures var i := MIN_HISTORY + k;
      var today := NewDay(LedgerAt(rounds, i, p, balance, c), rounds[i].day);
      && today.equity == EquityAfter(balance, ds, k) && today.peak == PeakAfter(balance, ds, k)
      && today.dailyEntries == EntriesToday(rounds, ds, k, rounds[i].day)
      && ds[k] == DecisionAt(rounds, i, p, balance, c)
  {
    var i := MIN_HISTORY + k;
    BooksBalance(rounds, i, p, balance, c);
    DecisionsListed(rounds, k, ds, p, balance, c);
    CounterIsToday(rounds, k, rounds[i].day, ds, p, balance, c);
    PrefixAccounts(balance, ds, k, k);
  }

  /** The verdict, by the first rule that fails. */
  predicate RuledBy(v: Verdict, s: Signal, today: nat, limit: bool, equity: real, c: Config) {
    && (v == Approved <==> Convincing(s, c) && today < c.maxDailyEntries && !limit && equity >= c.stake)
    && (v == Rejected(Stale) <==> !s.live)
    && (v == Rejected(LowProbability) <==> s.live && s.probability < c.threshold)
    && (v == Rejected(LowConfidence) <==> s.live && s.probability >= c.threshold && s.confidence < c.minConfidence)
    && (v == Rejected(DailyEntryLimit) <==> Convincing(s, c) && today >= c.maxDailyEntries)
    && (v == Rejected(MaxDrawdown) <==> Convincing(s, c) && today < c.maxDailyEntries && limit)
    && (v == Rejected(InsufficientBalance)
        <==> Convincing(s, c) && today < c.maxDailyEntries && !limit && equity < c.stake)
  }

  /** An approved round wins exactly when it reaches the cash-out; the others change nothing. */
  predicate BookedBy(d: Decision, r: Round, c: Config) {
    if d.verdict != Approved then d.outcome == Skip && d.pnl == 0.0
    else if r.crashPoint >= c.cashout then d.outcome == Win && d.pnl == c.stake * c.cashout - c.stake
    else d.outcome == Loss && d.pnl == -c.stake
  }

  lemma {:induction false} RulesInOrder(l: Ledger, s: Signal, c: Config)
    ensures RuledBy(SimulateRisk(s, l, c), s, l.dailyEntries, AtLimit(l.equity, l.peak, c), l.equity, c)
  {
    LimitInPercent(l.equity, l.peak, c);
  }

  lemma {:induction false} OutcomeIsBooked(l: Ledger, r: Round, s: Signal, balance: real, c: Config)
    ensures BookedBy(Decided(l, r, s, balance, c), r, c)
  {
    WinReturns(c.stake, c.cashout);
  }

  /**
   * In every run: a round is entered exactly when its signal is live and reaches both thresholds, fewer entries than the cap
   * have been made on its day, the drawdown is below the limit and the balance covers the stake. A reason names the first of
   * these that fails, and an entry wins exactly when the round reaches the cash-out.
   */
  lemma {:induction false} DecisionsFollowTheRules(rounds: seq<Round>, k: nat, ds: seq<Decision>, p: Predictor, balance: real,
                                                   c: Config)
    requires MIN_HISTORY + |ds| == |rounds| && k < |ds| && ds == DecisionsTo(rounds, |rounds|, p, balance, c)
    ensures var i := MIN_HISTORY + k;
      var equity, peak := EquityAfter(balance, ds, k), PeakAfter(balance, ds, k);
      && RuledBy(ds[k].verdict, Signaled(rounds, i, p), EntriesToday(rounds, ds, k, rounds[i].day),
                 AtLimit(equity, peak, c), equity, c)
      && BookedBy(ds[k], rounds[i], c)
  {
    var i := MIN_HISTORY + k;
    var l := LedgerAt(rounds, i, p, balance, c);
    LedgerBefore(rounds, k, ds, p, balance, c);
    RulesInOrder(NewDay(l, rounds[i].day), Signaled(rounds, i, p), c);
    OutcomeIsBooked(l, rounds[i], Signaled(rounds, i, p), balance, c);
  }

  /** Two predictors that give the same signals before a round leave the same account. */
  lemma {:induction false} SameSignalsSameAccount(rounds: seq<Round>, i: nat, p: Predictor, q: Predictor, balance: real, c: Config)
    requires i <= |rounds| && forall j :: MIN_HISTORY <= j < i ==> Signaled(rounds, j, p) == Signaled(rounds, j, q)
    ensures LedgerAt(rounds, i, p, balance, c) == LedgerAt(rounds, i, q, balance, c)
  {
    if i > MIN_HISTORY {
      SameSignalsSameAccount(rounds, i - 1, p, q, balance, c);
      assert Signaled(rounds, i - 1, p) == Signaled(rounds, i - 1, q);
    }
  }

  /** A more probable or more confident signal never turns the entry of its round into a skip. */
  lemma {:induction false} BetterSignalsStillEnter(rounds: seq<Round>, i: nat, p: Predictor, q: Predictor, balance: real, c: Config)
    requires MIN_HISTORY <= i < |rounds|
    requires forall j :: MIN_HISTORY <= j < i ==> Signaled(rounds, j, p) == Signaled(rounds, j, q)
    requires var s, t := Signaled(rounds, i, p), Signaled(rounds, i, q);
      t.live == s.live && t.probability >= s.probability && t.confidence >= s.confidence
    ensures Entered(DecisionAt(rounds, i, p, balance, c)) ==> Entered(DecisionAt(rounds, i, q, balance, c))
  {
    SameSignalsSameAccount(rounds, i, p, q, balance, c);
  }

  // ---------------------------------------------------------------- what the ledger and the decisions add up to

  function Number(ds: seq<Decision>, outcome: Outcome): nat {
    if ds == [] then 0 else Number(ds[..|ds| - 1], outcome) + (if ds[|ds| - 1].outcome == outcome then 1 else 0)
  }

  /** The ledger has counted the outcomes of the decisions. */
  predicate Tallied(l: Ledger, ds: seq<Decision>) {
    l.wins == Number(ds, Win) && l.losses == Number(ds, Loss) && l.rejected == Number(ds, Skip)
  }

  lemma {:induction false} PlayedIsTallied(l: Ledger, ds: seq<Decision>, r: Round, s: Signal, balance: real, c: Config)
    requires Tallied(l, ds)
    ensures Tallied(Played(l, r, s, balance, c), ds + [Decided(l, r, s, balance, c)])
  {
    var more := ds + [Decided(l, r, s, balance, c)];
    assert more[..|more| - 1] == ds;
  }

  lemma {:induction false} RoundIsTallied(rounds: seq<Round>, i: nat, l: Ledger, ds: seq<Decision>, p: Predictor, balance: real,
                                          c: Config)
    requires MIN_HISTORY <= i < |rounds| && Tallied(l, ds)
    requires l == LedgerAt(rounds, i, p, balance, c) && ds == DecisionsTo(rounds, i, p, balance, c)
    ensures Tallied(LedgerAt(rounds, i + 1, p, balance, c), DecisionsTo(rounds, i + 1, p, balance, c))
  {
    OneRound(rounds, i, p, balance, c);
    PlayedIsTallied(l, ds, rounds[i], Signaled(rounds, i, p), balance, c);
  }

  lemma {:induction false} OutcomesAreCounted(rounds: seq<Round>, i: nat, p: Predictor, balance: real, c: Config)
    requires i <= |rounds|
    ensures Tallied(LedgerAt(rounds, i, p, balance, c), DecisionsTo(rounds, i, p, balance, c))
  {
    if i > MIN_HISTORY {
      OutcomesAreCounted(rounds, i - 1, p, balance, c);
      RoundIsTallied(rounds, i - 1, LedgerAt(rounds, i - 1, p, balance, c), DecisionsTo(rounds, i - 1, p, balance, c), p, balance,
                     c);
    }
  }

  /** The drawdown in percent after the first `k` decisions. */
  function PercentAfter(balance: real, ds: seq<Decision>, k: nat): real
    requires k <= |ds|
  {
    var equity, peak := EquityAfter(balance, ds, k), PeakAfter(balance, ds, k);
    if peak > 0.0 then (peak - equity) / peak * 100.0 else 0.0
  }

  ghost predicate IsLargestPercent(percent: real, balance: real, ds: seq<Decision>) {
    && (forall k :: 0 <= k <= |ds| ==> PercentAfter(balance, ds, k) <= percent)
    && (exists k :: 0 <= k <= |ds| && PercentAfter(balance, ds, k) == percent)
  }

  lemma {:induction false} PercentOfPrefix(balance: real, ds: seq<Decision>, d: Decision, k: nat)
    requires k <= |ds|
    ensures PercentAfter(balance, ds + [d], k) == PercentAfter(balance, ds, k)
  {
    PrefixSums(balance, ds, d, k);
  }

  lemma {:induction false} LargestStep(percent: real, balance: real, ds: seq<Decision>, d: Decision)
    requires IsLargestPercent(percent, balance, ds)
    ensures IsLargestPercent(Max(percent, PercentAfter(balance, ds + [d], |ds| + 1)), balance, ds + [d])
  {
    forall k | 0 <= k <= |ds| ensures PercentAfter(balance, ds + [d], k) == PercentAfter(balance, ds, k) {
      PercentOfPrefix(balance, ds, d, k);
    }
    var k :| 0 <= k <= |ds| && PercentAfter(balance, ds, k) == percent;
    assert PercentAfter(balance, ds + [d], k) == percent;
  }

  lemma {:induction false} PlayedKeepsLargest(l: Ledger, ds: seq<Decision>, r: Round, s: Signal, balance: real, c: Config)
    requires Matches(l, ds, balance) && IsLargestPercent(l.maxDrawdownPct, balance, ds)
    ensures IsLargestPercent(Played(l, r, s, balance, c).maxDrawdownPct, balance, ds + [Decided(l, r, s, balance, c)])
  {
    var d := Decided(l, r, s, balance, c);
    var after, more := Played(l, r, s, balance, c), ds + [d];
    PlayedMatches(l, ds, r, s, balance, c);
    LargestStep(l.maxDrawdownPct, balance, ds, d);
    assert PercentAfter(balance, more, |more|) == DrawdownPct(after.equity, after.peak);
    if d.verdict != Approved { assert PercentAfter(balance, more, |more|) == PercentAfter(balance, ds, |ds|); }
  }

  lemma {:induction false} RoundKeepsLargest(rounds: seq<Round>, i: nat, l: Ledger, ds: seq<Decision>, p: Predictor, balance: real,
                                             c: Config)
    requires MIN_HISTORY <= i < |rounds|
    requires l == LedgerAt(rounds, i, p, balance, c) && ds == DecisionsTo(rounds, i, p, balance, c)
    requires IsLargestPercent(l.maxDrawdownPct, balance, ds)
    ensures IsLargestPercent(LedgerAt(rounds, i + 1, p, balance, c).maxDrawdownPct, balance,
                             DecisionsTo(rounds, i + 1, p, balance, c))
  {
    BooksBalance(rounds, i, p, balance, c);
    OneRound(rounds, i, p, balance, c);
    PlayedKeepsLargest(l, ds, rounds[i], Signaled(rounds, i, p), balance, c);
  }

  lemma {:induction false} LargestPercentIsKept(rounds: seq<Round>, i: nat, p: Predictor, balance: real, c: Config)
    requires i <= |rounds|
    ensures IsLargestPercent(LedgerAt(rounds, i, p, balance, c).maxDrawdownPct, balance, DecisionsTo(rounds, i, p, balance, c))
  {
    if i <= MIN_HISTORY {
      var ds := DecisionsTo(rounds, i, p, balance, c);
      assert ds[..0] == [] && PercentAfter(balance, ds, 0) == 0.0;
    } else {
      LargestPercentIsKept(rounds, i - 1, p, balance, c);
      RoundKeepsLargest(rounds, i - 1, LedgerAt(rounds, i - 1, p, balance, c), DecisionsTo(rounds, i - 1, p, balance, c), p,
                        balance, c);
    }
  }

  /** Every decision shows the account after it. */
  lemma {:induction false} DecisionsShowTheAccount(rounds: seq<Round>, k: nat, ds: seq<Decision>, p: Predictor, balance: real,
                                                   c: Config)
    requires MIN_HISTORY + |ds| == |rounds| && k < |ds| && ds == DecisionsTo(rounds, |rounds|, p, balance, c)
    ensures ds[k].cumulativePnl == TotalPnl(ds[..k + 1])
    ensures ds[k].drawdown == PeakAfter(balance, ds, k + 1) - EquityAfter(balance, ds, k + 1)
  {
    var i := MIN_HISTORY + k;
    DecisionsListed(rounds, k, ds, p, balance, c);
    OneRound(rounds, i, p, balance, c);
    BooksBalance(rounds, i + 1, p, balance, c);
    assert ds[..k + 1] == ds[..k] + [ds[k]];
    PrefixAccounts(balance, ds, k + 1, k + 1);
    assert ds[..k + 1][..k + 1] == ds[..k + 1];
  }
}
