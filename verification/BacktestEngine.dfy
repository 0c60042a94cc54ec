/** The backtest ledger: a loop over historical rounds that asks a predictor, applies the risk rules and books the result. */
module BacktestEngine {

  /** What the ledger reads of a round; `day` is the date part of its timestamp. */
  datatype Round = Round(day: string, crashPoint: real)

  /** What the risk rules read of a signal. */
  datatype Signal = Signal(live: bool, probability: real, confidence: real)

  datatype Config = Config(threshold: real, minConfidence: real, cashout: real, stake: real,
                           maxDailyEntries: int, maxDrawdownPct: real)

  datatype Reason = Stale | LowProbability | LowConfidence | DailyEntryLimit | MaxDrawdown | InsufficientBalance

  datatype Verdict = Approved | Rejected(reason: Reason)

  datatype Outcome = Win | Loss | Skip

  datatype Decision = Decision(verdict: Verdict, outcome: Outcome, pnl: real, cumulativePnl: real, drawdown: real)

  const MIN_HISTORY := 30

  /** Any predictor: a signal for every list of prior rounds and target round. */
  type Predictor = (seq<Round>, Round) -> Signal

  datatype Ledger = Ledger(dailyEntries: nat, lastDay: string, cumulativePnl: real, equity: real, peak: real,
                           maxDrawdown: real, maxDrawdownPct: real, wins: nat, losses: nat, rejected: nat)

  function Opening(balance: real): Ledger {
    Ledger(0, "", 0.0, balance, balance, 0.0, 0.0, 0, 0, 0)
  }

  function Max(a: real, b: real): real { if a > b then a else b }

  function DrawdownPct(equity: real, peak: real): real {
    if peak > 0.0 then (peak - equity) / peak * 100.0 else 0.0
  }

  /** The six rules, in their order. */
  function SimulateRisk(s: Signal, l: Ledger, c: Config): Verdict {
    if !s.live then Rejected(Stale)
    else if s.probability < c.threshold then Rejected(LowProbability)
    else if s.confidence < c.minConfidence then Rejected(LowConfidence)
    else if l.dailyEntries >= c.maxDailyEntries then Rejected(DailyEntryLimit)
    else if DrawdownPct(l.equity, l.peak) >= c.maxDrawdownPct then Rejected(MaxDrawdown)
    else if l.equity < c.stake then Rejected(InsufficientBalance)
    else Approved
  }

  function NewDay(l: Ledger, day: string): Ledger {
    if day != l.lastDay then l.(dailyEntries := 0, lastDay := day) else l
  }

  function Pnl(hit: bool, c: Config): real {
    if hit then c.stake * (c.cashout - 1.0) else -c.stake
  }

  function Booked(l: Ledger, hit: bool, balance: real, c: Config): Ledger {
    var cumulative := l.cumulativePnl + Pnl(hit, c);
    var equity := balance + cumulative;
    var peak := Max(l.peak, equity);
    l.(dailyEntries := l.dailyEntries + 1, cumulativePnl := cumulative, equity := equity, peak := peak,
       maxDrawdown := Max(l.maxDrawdown, peak - equity),
       maxDrawdownPct := if peak > 0.0 then Max(l.maxDrawdownPct, (peak - equity) / peak * 100.0) else l.maxDrawdownPct,
       wins := if hit then l.wins + 1 else l.wins,
       losses := if hit then l.losses else l.losses + 1)
  }

  /** One iteration of the loop. */
  function Played(l: Ledger, r: Round, s: Signal, balance: real, c: Config): Ledger {
    var today := NewDay(l, r.day);
    if SimulateRisk(s, today, c).Approved? then Booked(today, r.crashPoint >= c.cashout, balance, c)
    else today.(rejected := today.rejected + 1)
  }

  function Decided(l: Ledger, r: Round, s: Signal, balance: real, c: Config): Decision {
    var verdict := SimulateRisk(s, NewDay(l, r.day), c);
    var after := Played(l, r, s, balance, c);
    if verdict.Approved? then
      var hit := r.crashPoint >= c.cashout;
      Decision(verdict, if hit then Win else Loss, Pnl(hit, c), after.cumulativePnl, after.peak - after.equity)
    else Decision(verdict, Skip, 0.0, after.cumulativePnl, after.peak - after.equity)
  }

  /** The ledger after the rounds before index `i`; the first thirty are history only. */
  function LedgerAt(rounds: seq<Round>, i: nat, p: Predictor, balance: real, c: Config): Ledger
    requires i <= |rounds|
  {
    if i <= MIN_HISTORY then Opening(balance)
    else Played(LedgerAt(rounds, i - 1, p, balance, c), rounds[i - 1], p(rounds[..i - 1], rounds[i - 1]), balance, c)
  }

  function DecisionAt(rounds: seq<Round>, i: nat, p: Predictor, balance: real, c: Config): Decision
    requires i < |rounds|
  {
    Decided(LedgerAt(rounds, i, p, balance, c), rounds[i], p(rounds[..i], rounds[i]), balance, c)
  }

  function DecisionsTo(rounds: seq<Round>, i: nat, p: Predictor, balance: real, c: Config): (ds: seq<Decision>)
    requires i <= |rounds|
    ensures |ds| == if i > MIN_HISTORY then i - MIN_HISTORY else 0
  {
    if i <= MIN_HISTORY then []
    else DecisionsTo(rounds, i - 1, p, balance, c) + [DecisionAt(rounds, i - 1, p, balance, c)]
  }

  lemma {:induction false} OneRound(rounds: seq<Round>, i: nat, p: Predictor, balance: real, c: Config)
    requires MIN_HISTORY <= i < |rounds|
    ensures var l, s := LedgerAt(rounds, i, p, balance, c), p(rounds[..i], rounds[i]);
      && LedgerAt(rounds, i + 1, p, balance, c) == Played(l, rounds[i], s, balance, c)
      && DecisionsTo(rounds, i + 1, p, balance, c)
         == DecisionsTo(rounds, i, p, balance, c) + [Decided(l, rounds[i], s, balance, c)]
  {}

  /** Book an approved entry. */
  method Book(l: Ledger, hit: bool, balance: real, c: Config) returns (after: Ledger, pnl: real)
    ensures after == Booked(l, hit, balance, c) && pnl == Pnl(hit, c)
  {
    after := l.(dailyEntries := l.dailyEntries + 1);
    if hit {
      pnl := c.stake * (c.cashout - 1.0);
      after := after.(wins := after.wins + 1);
    } else {
      pnl := -c.stake;
      after := after.(losses := after.losses + 1);
    }
    after := after.(cumulativePnl := after.cumulativePnl + pnl);
    after := after.(equity := balance + after.cumulativePnl);
    after := after.(peak := Max(after.peak, after.equity));
    var dd := after.peak - after.equity;
    after := after.(maxDrawdown := Max(after.maxDrawdown, dd));
    if after.peak > 0.0 {
      after := after.(maxDrawdownPct := Max(after.maxDrawdownPct, dd / after.peak * 100.0));
    }
  }

  /** The loop body: a new day resets the counter, the risk rules decide, an approved entry is booked. */
  method PlayRound(l: Ledger, current: Round, signal: Signal, balance: real, c: Config)
    returns (ledger: Ledger, decision: Decision)
    ensures ledger == Played(l, current, signal, balance, c)
    ensures decision == Decided(l, current, signal, balance, c)
  {
    ledger := l;
    if current.day != ledger.lastDay {
      ledger := ledger.(dailyEntries := 0, lastDay := current.day);
    }
    var verdict := SimulateRisk(signal, ledger, c);
    var outcome, pnl := Skip, 0.0;
    if verdict.Approved? {
      var hit := current.crashPoint >= c.cashout;
      outcome := if hit then Win else Loss;
      ledger, pnl := Book(ledger, hit, balance, c);
    } else {
      ledger := ledger.(rejected := ledger.rejected + 1);
    }
    decision := Decision(verdict, outcome, pnl, ledger.cumulativePnl, ledger.peak - ledger.equity);
  }

  /** The loop has come to round `i`. */
  ghost predicate Replayed(rounds: seq<Round>, i: nat, p: Predictor, balance: real, c: Config,
                           ledger: Ledger, decisions: seq<Decision>)
  {
    && i <= |rounds|
    && ledger == LedgerAt(rounds, i, p, balance, c)
    && decisions == DecisionsTo(rounds, i, p, balance, c)
  }

  method Run(rounds: seq<Round>, p: Predictor, balance: real, c: Config)
    returns (ledger: Ledger, decisions: seq<Decision>)
    ensures ledger == LedgerAt(rounds, |rounds|, p, balance, c)
    ensures decisions == DecisionsTo(rounds, |rounds|, p, balance, c)
  {
    ledger, decisions := Opening(balance), [];
    var i := MIN_HISTORY;
    while i < |rounds|
      invariant i >= MIN_HISTORY && i - |rounds| <= MIN_HISTORY
      invariant Replayed(rounds, if i > |rounds| then |rounds| else i, p, balance, c, ledger, decisions)
    {
      var decision;
      ledger, decision := PlayRound(ledger, rounds[i], p(rounds[..i], rounds[i]), balance, c);
      decisions := decisions + [decision];
      i := i + 1;
    }
  }

  // ---------------------------------------------------------------- properties

  function TotalPnl(ds: seq<Decision>): real {
    if ds == [] then 0.0 else TotalPnl(ds[..|ds| - 1]) + ds[|ds| - 1].pnl
  }

  /** The equity after the first `k` decisions. */
  function EquityAfter(balance: real, ds: seq<Decision>, k: nat): real
    requires k <= |ds|
  {
    balance + TotalPnl(ds[..k])
  }

  /** The highest equity so far, the opening balance included. */
  function PeakAfter(balance: real, ds: seq<Decision>, k: nat): real
    requires k <= |ds|
  {
    if k == 0 then balance else Max(PeakAfter(balance, ds, k - 1), EquityAfter(balance, ds, k))
  }

  /** The largest drop below the running peak so far. */
  function DropAfter(balance: real, ds: seq<Decision>, k: nat): real
    requires k <= |ds|
  {
    if k == 0 then 0.0
    else Max(DropAfter(balance, ds, k - 1), PeakAfter(balance, ds, k) - EquityAfter(balance, ds, k))
  }

  lemma {:induction false} PeakIsPrefixMaximum(balance: real, ds: seq<Decision>, k: nat)
    requires k <= |ds|
    ensures forall j :: 0 <= j <= k ==> EquityAfter(balance, ds, j) <= PeakAfter(balance, ds, k)
    ensures exists j :: 0 <= j <= k && EquityAfter(balance, ds, j) == PeakAfter(balance, ds, k)
  {
    if k == 0 {
      assert EquityAfter(balance, ds, 0) == balance;
    } else {
      PeakIsPrefixMaximum(balance, ds, k - 1);
    }
  }

  lemma {:induction false} DropIsPrefixMaximum(balance: real, ds: seq<Decision>, k: nat)
    requires k <= |ds|
    ensures forall j :: 0 <= j <= k ==> PeakAfter(balance, ds, j) - EquityAfter(balance, ds, j) <= DropAfter(balance, ds, k)
    ensures exists j :: 0 <= j <= k && PeakAfter(balance, ds, j) - EquityAfter(balance, ds, j) == DropAfter(balance, ds, k)
  {
    if k == 0 {
      assert PeakAfter(balance, ds, 0) - EquityAfter(balance, ds, 0) == 0.0;
    } else {
      DropIsPrefixMaximum(balance, ds, k - 1);
    }
  }

  /** What the ledger says is what the decision list says. */
  predicate Matches(l: Ledger, ds: seq<Decision>, balance: real) {
    && l.cumulativePnl == TotalPnl(ds)
    && l.equity == EquityAfter(balance, ds, |ds|)
    && l.peak == PeakAfter(balance, ds, |ds|)
    && l.maxDrawdown == DropAfter(balance, ds, |ds|)
    && l.peak >= l.equity
  }

  lemma {:induction false} PrefixSums(balance: real, ds: seq<Decision>, d: Decision, k: nat)
    requires k <= |ds|
    ensures EquityAfter(balance, ds + [d], k) == EquityAfter(balance, ds, k)
    ensures PeakAfter(balance, ds + [d], k) == PeakAfter(balance, ds, k)
    ensures DropAfter(balance, ds + [d], k) == DropAfter(balance, ds, k)
  {
    assert (ds + [d])[..k] == ds[..k];
    if k > 0 { PrefixSums(balance, ds, d, k - 1); }
  }

  lemma {:induction false} PlayedMatches(l: Ledger, ds: seq<Decision>, r: Round, s: Signal, balance: real, c: Config)
    requires Matches(l, ds, balance)
    ensures Matches(Played(l, r, s, balance, c), ds + [Decided(l, r, s, balance, c)], balance)
  {
    var d := Decided(l, r, s, balance, c);
    var more := ds + [d];
    PrefixSums(balance, ds, d, |ds|);
    assert more[..|ds|] == ds && more[..|more|] == more;
    assert EquityAfter(balance, more, |more|) == l.equity + d.pnl;
  }

  /** For every round list and every predictor the books balance: equity, peak and drawdown are those of the decisions. */
  lemma {:induction false} BooksBalance(rounds: seq<Round>, i: nat, p: Predictor, balance: real, c: Config)
    requires i <= |rounds|
    ensures Matches(LedgerAt(rounds, i, p, balance, c), DecisionsTo(rounds, i, p, balance, c), balance)
  {
    if i <= MIN_HISTORY {
      assert DecisionsTo(rounds, i, p, balance, c)[..0] == [];
    } else {
      BooksBalance(rounds, i - 1, p, balance, c);
      PlayedMatches(LedgerAt(rounds, i - 1, p, balance, c), DecisionsTo(rounds, i - 1, p, balance, c),
                    rounds[i - 1], p(rounds[..i - 1], rounds[i - 1]), balance, c);
    }
  }

  lemma {:induction false} WinReturns(stake: real, cashout: real)
    ensures stake * (cashout - 1.0) == stake * cashout - stake
  {}

  /** No entry is ever admitted. */
  predicate NeverEnters(c: Config, balance: real) {
    c.maxDailyEntries <= 0 || c.maxDrawdownPct <= 0.0 || balance < c.stake
  }

  lemma {:induction false} Untouched(rounds: seq<Round>, i: nat, p: Predictor, balance: real, c: Config)
    requires i <= |rounds| && NeverEnters(c, balance)
    ensures var l := LedgerAt(rounds, i, p, balance, c);
      l.equity == l.peak == balance && l.maxDrawdown == 0.0
  {
    if i > MIN_HISTORY { Untouched(rounds, i - 1, p, balance, c); }
  }

  /** Neither outcome of an entry can take the smallest admitted equity below zero, or there are no entries. */
  predicate CannotOverdraw(c: Config) {
    || c.stake * c.cashout >= 0.0
    || c.stake * (c.cashout - 1.0) >= 0.0
    || c.maxDailyEntries <= 0
    || c.maxDrawdownPct <= 0.0
  }

  lemma {:induction false} PlayedStaysNonNegative(l: Ledger, r: Round, s: Signal, balance: real, c: Config)
    requires CannotOverdraw(c) && c.maxDailyEntries > 0 && c.maxDrawdownPct > 0.0
    requires l.equity == balance + l.cumulativePnl && l.equity >= 0.0
    ensures Played(l, r, s, balance, c).equity >= 0.0
  {
    WinReturns(c.stake, c.cashout);
  }

  lemma {:induction false} EquityIsBooked(rounds: seq<Round>, i: nat, p: Predictor, balance: real, c: Config)
    requires i <= |rounds|
    ensures var l := LedgerAt(rounds, i, p, balance, c);
      l.equity == balance + l.cumulativePnl && l.peak >= l.equity && l.peak >= balance && l.maxDrawdown >= l.peak - l.equity
  {
    if i > MIN_HISTORY { EquityIsBooked(rounds, i - 1, p, balance, c); }
  }

  /** The equity never goes below zero. */
  lemma {:induction false} EquityStaysNonNegative(rounds: seq<Round>, i: nat, p: Predictor, balance: real, c: Config)
    requires i <= |rounds| && balance >= 0.0 && CannotOverdraw(c)
    ensures LedgerAt(rounds, i, p, balance, c).equity >= 0.0
  {
    if c.maxDailyEntries <= 0 || c.maxDrawdownPct <= 0.0 {
      Untouched(rounds, i, p, balance, c);
    } else if i > MIN_HISTORY {
      EquityStaysNonNegative(rounds, i - 1, p, balance, c);
      EquityIsBooked(rounds, i - 1, p, balance, c);
      PlayedStaysNonNegative(LedgerAt(rounds, i - 1, p, balance, c), rounds[i - 1], p(rounds[..i - 1], rounds[i - 1]), balance, c);
    }
  }

  /** Thirty rounds of history and one round that pays out. */
  function PayingRounds(c: Config): seq<Round> {
    seq(MIN_HISTORY + 1, _ => Round("day", c.cashout))
  }

  function Approving(c: Config): Predictor {
    (prior, target) => Signal(true, c.threshold, c.minConfidence)
  }

  /** A balance that may enter, an approving predictor and a round that pays out: one win. */
  lemma {:induction false} OneWin(balance: real, c: Config)
    requires !NeverEnters(c, balance)
    ensures LedgerAt(PayingRounds(c), MIN_HISTORY + 1, Approving(c), balance, c)
         == Booked(Opening(balance).(lastDay := "day"), true, balance, c)
  {
    var rounds, p, n := PayingRounds(c), Approving(c), MIN_HISTORY;
    assert rounds[n] == Round("day", c.cashout);
    assert LedgerAt(rounds, n, p, balance, c) == Opening(balance);
    assert p(rounds[..n], rounds[n]) == Signal(true, c.threshold, c.minConfidence);
    assert DrawdownPct(balance, balance) == 0.0;
    assert SimulateRisk(p(rounds[..n], rounds[n]), NewDay(Opening(balance), "day"), c) == Approved;
    OneRound(rounds, n, p, balance, c);
  }

  /** An opening balance from which a single win ends in the red. */
  function Fatal(c: Config): real {
    if c.stake > 0.0 then c.stake else 0.0
  }

  lemma {:induction false} AWinOverdraws(c: Config)
    requires !CannotOverdraw(c)
    ensures Fatal(c) >= 0.0 && !NeverEnters(c, Fatal(c))
    ensures LedgerAt(PayingRounds(c), MIN_HISTORY + 1, Approving(c), Fatal(c), c).equity < 0.0
  {
    WinReturns(c.stake, c.cashout);
    OneWin(Fatal(c), c);
  }

  ghost predicate AlwaysSolvent(c: Config) {
    forall rounds: seq<Round>, i: nat, p: Predictor, balance: real ::
      i <= |rounds| && balance >= 0.0 ==> LedgerAt(rounds, i, p, balance, c).equity >= 0.0
  }

  /** Over all runs from a balance that is not negative: the equity never goes below zero exactly when no entry is ever
      admitted, or a win returns at least nothing, or a win gains. */
  lemma {:induction false} AlwaysSolventIff(c: Config)
    ensures AlwaysSolvent(c) <==> CannotOverdraw(c)
  {
    if CannotOverdraw(c) {
      forall rounds: seq<Round>, i: nat, p: Predictor, balance: real | i <= |rounds| && balance >= 0.0
        ensures LedgerAt(rounds, i, p, balance, c).equity >= 0.0
      {
        EquityStaysNonNegative(rounds, i, p, balance, c);
      }
    } else {
      AWinOverdraws(c);
    }
  }

  predicate Entered(d: Decision) { d.verdict.Approved? }

  /** The entries among the rounds of indices `lo` to `hi`. */
  function Entries(rounds: seq<Round>, lo: nat, hi: nat, p: Predictor, balance: real, c: Config): nat
    requires lo <= hi <= |rounds|
  {
    if lo == hi then 0
    else
      var before := Entries(rounds, lo, hi - 1, p, balance, c);
      if Entered(DecisionAt(rounds, hi - 1, p, balance, c)) then before + 1 else before
  }

  predicate SameDay(rounds: seq<Round>, lo: nat, hi: nat)
    requires lo <= hi <= |rounds|
  {
    forall j :: lo <= j < hi ==> rounds[j].day == rounds[lo].day
  }

  /** What the counter says about `entries` made on `day` so far. */
  predicate CounterCovers(l: Ledger, day: string, entries: nat, cap: int) {
    l.lastDay == day && entries <= l.dailyEntries && (l.dailyEntries <= cap || entries == 0)
  }

  lemma {:induction false} CounterStep(l: Ledger, r: Round, s: Signal, entries: nat, balance: real, c: Config)
    requires CounterCovers(l, r.day, entries, c.maxDailyEntries) || entries == 0
    ensures CounterCovers(Played(l, r, s, balance, c), r.day,
                          if Entered(Decided(l, r, s, balance, c)) then entries + 1 else entries, c.maxDailyEntries)
  {}

  /** The counter has seen every entry of a stretch of equal days, and it is within the cap whenever it has moved. */
  lemma {:induction false} CounterCoversTheDay(rounds: seq<Round>, lo: nat, hi: nat, p: Predictor, balance: real, c: Config)
    requires MIN_HISTORY <= lo < hi <= |rounds| && SameDay(rounds, lo, hi)
    ensures CounterCovers(LedgerAt(rounds, hi, p, balance, c), rounds[lo].day,
                          Entries(rounds, lo, hi, p, balance, c), c.maxDailyEntries)
    decreases hi
  {
    var entries := Entries(rounds, lo, hi - 1, p, balance, c);
    if hi - lo > 1 { CounterCoversTheDay(rounds, lo, hi - 1, p, balance, c); }
    CounterStep(LedgerAt(rounds, hi - 1, p, balance, c), rounds[hi - 1], p(rounds[..hi - 1], rounds[hi - 1]),
                entries, balance, c);
    OneRound(rounds, hi - 1, p, balance, c);
    assert rounds[hi - 1].day == rounds[lo].day;
  }

  /** On any stretch of rounds of one day at most `maxDailyEntries` entries are made. */
  lemma {:induction false} DailyCapHolds(rounds: seq<Round>, lo: nat, hi: nat, p: Predictor, balance: real, c: Config)
    requires MIN_HISTORY <= lo <= hi <= |rounds| && SameDay(rounds, lo, hi)
    ensures Entries(rounds, lo, hi, p, balance, c) <= (if c.maxDailyEntries > 0 then c.maxDailyEntries else 0)
  {
    if lo < hi { CounterCoversTheDay(rounds, lo, hi, p, balance, c); }
  }

  /** The entries made on `day` by the whole run up to index `n`, wherever its rounds stand. */
  function EntriesOn(rounds: seq<Round>, n: nat, day: string, p: Predictor, balance: real, c: Config): nat
    requires n <= |rounds|
  {
    if n <= MIN_HISTORY then 0
    else
      var before := EntriesOn(rounds, n - 1, day, p, balance, c);
      if rounds[n - 1].day == day && Entered(DecisionAt(rounds, n - 1, p, balance, c)) then before + 1 else before
  }

  /** The rounds of `day` that are played up to index `n`. */
  function CountOn(rounds: seq<Round>, n: nat, day: string): nat
    requires n <= |rounds|
  {
    if n <= MIN_HISTORY then 0
    else CountOn(rounds, n - 1, day) + (if rounds[n - 1].day == day then 1 else 0)
  }

  /** No other day stands between two played rounds of `day`. */
  predicate OneStretch(rounds: seq<Round>, n: nat, day: string)
    requires n <= |rounds|
  {
    forall i, j, k :: MIN_HISTORY <= i < j < k < n && rounds[i].day == day && rounds[k].day == day ==> rounds[j].day == day
  }

  /** The round at index `n` opens a stretch of `day` and an earlier stretch has been there. */
  predicate ComesBack(rounds: seq<Round>, n: nat, day: string)
    requires n < |rounds|
  {
    n > MIN_HISTORY && rounds[n].day == day && rounds[n - 1].day != day && CountOn(rounds, n, day) > 0
  }

  lemma {:induction false} CountedMeansPlayed(rounds: seq<Round>, n: nat, day: string)
    requires n <= |rounds|
    ensures CountOn(rounds, n, day) > 0 <==> exists i :: MIN_HISTORY <= i < n && rounds[i].day == day
  {
    if n > MIN_HISTORY { CountedMeansPlayed(rounds, n - 1, day); }
  }

  lemma {:induction false} StretchStep(rounds: seq<Round>, n: nat, day: string)
    requires n < |rounds|
    ensures OneStretch(rounds, n + 1, day) <==> OneStretch(rounds, n, day) && !ComesBack(rounds, n, day)
  {
    CountedMeansPlayed(rounds, n, day);
    if ComesBack(rounds, n, day) {
      var i :| MIN_HISTORY <= i < n && rounds[i].day == day;
      assert i < n - 1;
    } else if OneStretch(rounds, n, day) {
      forall i, j, k | MIN_HISTORY <= i < j < k < n + 1 && rounds[i].day == day && rounds[k].day == day
        ensures rounds[j].day == day
      {
        if k == n && j < n - 1 { assert rounds[n - 1].day == day; }
      }
    }
  }

  lemma {:induction false} EntriesAreCounted(rounds: seq<Round>, n: nat, day: string, p: Predictor, balance: real, c: Config)
    requires n <= |rounds|
    ensures EntriesOn(rounds, n, day, p, balance, c) <= CountOn(rounds, n, day)
    ensures c.maxDailyEntries <= 0 ==> EntriesOn(rounds, n, day, p, balance, c) == 0
  {
    if n > MIN_HISTORY { EntriesAreCounted(rounds, n - 1, day, p, balance, c); }
  }

  /** While `day` has one stretch, the counter has seen all its entries as long as the stretch lasts. */
  lemma {:induction false} OneStretchKeepsTheCap(rounds: seq<Round>, n: nat, day: string, p: Predictor, balance: real, c: Config)
    requires n <= |rounds| && c.maxDailyEntries > 0 && OneStretch(rounds, n, day)
    ensures var l, e := LedgerAt(rounds, n, p, balance, c), EntriesOn(rounds, n, day, p, balance, c);
      e <= c.maxDailyEntries && (n > MIN_HISTORY && rounds[n - 1].day == day ==> CounterCovers(l, day, e, c.maxDailyEntries))
  {
    if n > MIN_HISTORY {
      OneStretchKeepsTheCap(rounds, n - 1, day, p, balance, c);
      StretchStep(rounds, n - 1, day);
      EntriesAreCounted(rounds, n - 1, day, p, balance, c);
      if rounds[n - 1].day == day {
        CounterStep(LedgerAt(rounds, n - 1, p, balance, c), rounds[n - 1], p(rounds[..n - 1], rounds[n - 1]),
                    EntriesOn(rounds, n - 1, day, p, balance, c), balance, c);
      }
    }
  }

  /** Entries that cost nothing, so that the daily limit alone decides. */
  function Free(cap: int): Config {
    Config(0.0, 0.0, 1.0, 0.0, cap, 100.0)
  }

  /** What an approving predictor has entered on `day`: all it may in the first stretch, and more once the day comes back. */
  predicate Quota(l: Ledger, e: nat, count: nat, one: bool, today: bool, cap: nat) {
    && (l.equity == l.peak == l.cumulativePnl == 0.0 && l.dailyEntries <= cap)
    && (one ==> e == (if count < cap then count else cap) && (today ==> l.dailyEntries == e))
    && (!one ==> e >= (if count <= cap then count else cap + 1) && e > 0 && (today ==> e > l.dailyEntries))
  }

  lemma {:induction false} FreeRound(l: Ledger, r: Round, s: Signal, cap: int)
    requires l.equity == l.peak == l.cumulativePnl == 0.0 && s == Signal(true, 0.0, 0.0)
    ensures var m := Played(l, r, s, 0.0, Free(cap));
      && Entered(Decided(l, r, s, 0.0, Free(cap))) == (NewDay(l, r.day).dailyEntries < cap)
      && m.equity == m.peak == m.cumulativePnl == 0.0
      && m.dailyEntries == (if NewDay(l, r.day).dailyEntries < cap then NewDay(l, r.day).dailyEntries + 1
                            else NewDay(l, r.day).dailyEntries)
  {
    assert Pnl(r.crashPoint >= 1.0, Free(cap)) == 0.0;
  }

  lemma {:induction false} LastDayIs(rounds: seq<Round>, n: nat, p: Predictor, balance: real, c: Config)
    requires n <= |rounds|
    ensures var l := LedgerAt(rounds, n, p, balance, c);
      if n > MIN_HISTORY then l.lastDay == rounds[n - 1].day else l.dailyEntries == 0
  {}

  /** One more round, with an approving signal. */
  lemma {:induction false} QuotaStep(l: Ledger, r: Round, s: Signal, e: nat, count: nat, one: bool, today: bool, day: string,
                                     cap: nat)
    requires Quota(l, e, count, one, today, cap) && s == Signal(true, 0.0, 0.0) && cap > 0
    requires if today then l.lastDay == day else (count == 0 && l.dailyEntries == 0) || l.lastDay != day
    ensures var more := r.day == day && Entered(Decided(l, r, s, 0.0, Free(cap)));
      Quota(Played(l, r, s, 0.0, Free(cap)), if more then e + 1 else e, if r.day == day then count + 1 else count,
            one && (r.day != day || today || count == 0), r.day == day, cap)
  {
    FreeRound(l, r, s, cap);
  }

  lemma {:induction false} QuotaIsUsed(rounds: seq<Round>, n: nat, day: string, p: Predictor, cap: nat)
    requires n <= |rounds| && cap > 0 && p == Approving(Free(cap))
    ensures Quota(LedgerAt(rounds, n, p, 0.0, Free(cap)), EntriesOn(rounds, n, day, p, 0.0, Free(cap)),
                  CountOn(rounds, n, day), OneStretch(rounds, n, day), n > MIN_HISTORY && rounds[n - 1].day == day, cap)
  {
    if n > MIN_HISTORY {
      var m := n - 1;
      QuotaIsUsed(rounds, m, day, p, cap);
      StretchStep(rounds, m, day);
      LastDayIs(rounds, m, p, 0.0, Free(cap));
      QuotaStep(LedgerAt(rounds, m, p, 0.0, Free(cap)), rounds[m], p(rounds[..m], rounds[m]),
                EntriesOn(rounds, m, day, p, 0.0, Free(cap)), CountOn(rounds, m, day), OneStretch(rounds, m, day),
                m > MIN_HISTORY && rounds[m - 1].day == day, day, cap);
    }
  }

  /** The most that may be entered on one day. */
  function DailyQuota(cap: int): nat { if cap > 0 then cap else 0 }

  /** Over all runs on these rounds: no day's entries exceed the cap. */
  ghost predicate CapHoldsOn(rounds: seq<Round>, day: string, cap: int) {
    forall p: Predictor, balance: real, c: Config | c.maxDailyEntries == cap ::
      EntriesOn(rounds, |rounds|, day, p, balance, c) <= DailyQuota(cap)
  }

  /** The cap on the entries of a day holds for every predictor exactly when nothing may be entered at all, or the rounds
      of the day stand together, or there are no more of them than the cap: a day that comes back has a second quota. */
  lemma {:induction false} DailyCapIff(rounds: seq<Round>, day: string, cap: int)
    ensures CapHoldsOn(rounds, day, cap)
       <==> cap <= 0 || OneStretch(rounds, |rounds|, day) || CountOn(rounds, |rounds|, day) <= cap
  {
    var n := |rounds|;
    if cap <= 0 || OneStretch(rounds, n, day) || CountOn(rounds, n, day) <= cap {
      forall p: Predictor, balance: real, c: Config | c.maxDailyEntries == cap
        ensures EntriesOn(rounds, n, day, p, balance, c) <= DailyQuota(cap)
      {
        EntriesAreCounted(rounds, n, day, p, balance, c);
        if cap > 0 && OneStretch(rounds, n, day) { OneStretchKeepsTheCap(rounds, n, day, p, balance, c); }
      }
    } else {
      QuotaIsUsed(rounds, n, day, Approving(Free(cap)), cap);
      assert EntriesOn(rounds, n, day, Approving(Free(cap)), 0.0, Free(cap)) > DailyQuota(cap);
    }
  }

  /** Any thirty rounds of history, a round of one day, a round of another and a further one of the first. */
  predicate ReturningDay(rounds: seq<Round>, day: string, other: string) {
    var n := |rounds|;
    n == MIN_HISTORY + 3 && rounds[n - 3].day == rounds[n - 1].day == day && rounds[n - 2].day == other != day
  }

  /** With a cap of one the first day has two entries. */
  lemma {:induction false} ReturningDayPassesTheCap(rounds: seq<Round>, day: string, other: string, cap: nat)
    requires ReturningDay(rounds, day, other) && cap == 1
    ensures EntriesOn(rounds, |rounds|, day, Approving(Free(cap)), 0.0, Free(cap)) == 2
  {
    var n := |rounds|;
    assert CountOn(rounds, n - 2, day) == CountOn(rounds, n - 3, day) + 1 == 1;
    assert CountOn(rounds, n, day) == CountOn(rounds, n - 1, day) + 1 == 2;
    QuotaIsUsed(rounds, n, day, Approving(Free(cap)), cap);
    EntriesAreCounted(rounds, n, day, Approving(Free(cap)), 0.0, Free(cap));
  }

  /** Once the drawdown limit is reached nothing is ever entered again and the account stays as it is. */
  lemma {:induction false} DrawdownLocksOut(rounds: seq<Round>, i: nat, j: nat, p: Predictor, balance: real, c: Config)
    requires i <= j < |rounds|
    requires var l := LedgerAt(rounds, i, p, balance, c); DrawdownPct(l.equity, l.peak) >= c.maxDrawdownPct
    ensures !Entered(DecisionAt(rounds, j, p, balance, c))
    ensures var l, m := LedgerAt(rounds, i, p, balance, c), LedgerAt(rounds, j, p, balance, c);
      m.equity == l.equity && m.peak == l.peak && m.cumulativePnl == l.cumulativePnl
    decreases j
  {
    if i < j { DrawdownLocksOut(rounds, i, j - 1, p, balance, c); }
  }

  /** The limit in money, against the peak. */
  function LimitAt(peak: real, c: Config): real {
    c.maxDrawdownPct * peak / 100.0
  }

  lemma {:induction false} ShareBelow(gap: real, peak: real, pct: real, share: real)
    requires peak > 0.0 && share == gap / peak && share * 100.0 < pct
    ensures gap < pct * peak / 100.0
  {
    assert share * peak == gap;
    assert (pct / 100.0 - share) * peak > 0.0;
    assert pct / 100.0 * peak == pct * peak / 100.0;
  }

  lemma {:induction false} BelowLimit(equity: real, peak: real, c: Config)
    requires peak > 0.0 && DrawdownPct(equity, peak) < c.maxDrawdownPct
    ensures peak - equity < LimitAt(peak, c)
  {
    ShareBelow(peak - equity, peak, c.maxDrawdownPct, (peak - equity) / peak);
  }

  /** What the worse outcome of an entry costs: the stake, unless a win costs more. */
  function WorstLoss(c: Config): real {
    Max(-Pnl(false, c), -Pnl(true, c))
  }

  /** The largest drop, if there is any, stays within the limit at the peak plus one loss. */
  predicate WithinLimit(l: Ledger, c: Config) {
    l.maxDrawdown >= 0.0 && (l.maxDrawdown > 0.0 ==> l.maxDrawdown < LimitAt(l.peak, c) + WorstLoss(c))
  }

  lemma {:induction false} WorstLossIsTheStakeIff(c: Config)
    ensures WorstLoss(c) == c.stake <==> c.stake * c.cashout >= 0.0
  {
    WinReturns(c.stake, c.cashout);
  }

  lemma {:induction false} ProductGrows(p: real, q: real, pct: real)
    requires p <= q && pct >= 0.0
    ensures pct * p <= pct * q
  {
    assert pct * (q - p) >= 0.0;
  }

  lemma {:induction false} LimitGrows(p: real, q: real, c: Config)
    requires p <= q && c.maxDrawdownPct >= 0.0
    ensures LimitAt(p, c) <= LimitAt(q, c)
  {
    ProductGrows(p, q, c.maxDrawdownPct);
  }

  /** From a positive peak, or with a stake that is not negative, or when no outcome loses, the lock-out is in time. */
  predicate LocksInTime(c: Config, balance: real) {
    c.stake >= 0.0 || c.cashout <= 1.0 || balance > 0.0 || NeverEnters(c, balance)
  }

  lemma {:induction false} NoLoss(stake: real, cashout: real)
    requires stake < 0.0 && cashout <= 1.0
    ensures stake * (cashout - 1.0) >= 0.0
  {
    assert (-stake) * (1.0 - cashout) >= 0.0;
  }

  /** An entry adds at most one loss to the drop below the peak. */
  lemma {:induction false} BookedDrop(l: Ledger, hit: bool, balance: real, c: Config)
    requires l.equity == balance + l.cumulativePnl && l.peak >= l.equity
    ensures var after := Booked(l, hit, balance, c);
      && after.maxDrawdown == Max(l.maxDrawdown, after.peak - after.equity) && after.peak >= l.peak
      && (after.peak - after.equity == 0.0 || after.peak - after.equity == (l.peak - l.equity) - Pnl(hit, c))
      && -Pnl(hit, c) <= WorstLoss(c)
  {}

  lemma {:induction false} PnlWhenPeakIsNotPositive(hit: bool, equity: real, c: Config)
    requires equity >= c.stake && equity <= 0.0 && (c.stake >= 0.0 || c.cashout <= 1.0)
    ensures Pnl(hit, c) >= 0.0
  {
    if c.stake < 0.0 { NoLoss(c.stake, c.cashout); }
  }

  lemma {:induction false} StaysBelow(most: real, drop: real, low: real, high: real, worst: real, gap: real, pnl: real)
    requires most >= gap && (most > 0.0 ==> most < low + worst)
    requires low <= high && (gap < low || pnl >= 0.0) && (drop == 0.0 || drop == gap - pnl) && -pnl <= worst
    ensures Max(most, drop) > 0.0 ==> Max(most, drop) < high + worst
  {}

  lemma {:induction false} DropStaysWithinLimit(l: Ledger, after: Ledger, pnl: real, c: Config)
    requires WithinLimit(l, c) && c.maxDrawdownPct > 0.0 && l.maxDrawdown >= l.peak - l.equity && after.peak >= l.peak
    requires after.maxDrawdown == Max(l.maxDrawdown, after.peak - after.equity) && -pnl <= WorstLoss(c)
    requires after.peak - after.equity == 0.0 || after.peak - after.equity == (l.peak - l.equity) - pnl
    requires l.peak - l.equity < LimitAt(l.peak, c) || pnl >= 0.0
    ensures WithinLimit(after, c)
  {
    LimitGrows(l.peak, after.peak, c);
    StaysBelow(l.maxDrawdown, after.peak - after.equity, LimitAt(l.peak, c), LimitAt(after.peak, c), WorstLoss(c),
               l.peak - l.equity, pnl);
  }

  lemma {:induction false} BookingStaysWithinLimit(l: Ledger, hit: bool, balance: real, c: Config)
    requires l.equity == balance + l.cumulativePnl && l.peak >= l.equity >= c.stake && WithinLimit(l, c)
    requires l.maxDrawdown >= l.peak - l.equity
    requires c.maxDrawdownPct > 0.0 && DrawdownPct(l.equity, l.peak) < c.maxDrawdownPct
    requires c.stake >= 0.0 || c.cashout <= 1.0 || l.peak > 0.0
    ensures WithinLimit(Booked(l, hit, balance, c), c)
  {
    BookedDrop(l, hit, balance, c);
    if l.peak > 0.0 {
      BelowLimit(l.equity, l.peak, c);
    } else {
      PnlWhenPeakIsNotPositive(hit, l.equity, c);
    }
    DropStaysWithinLimit(l, Booked(l, hit, balance, c), Pnl(hit, c), c);
  }

  lemma {:induction false} PlayedStaysWithinLimit(l: Ledger, r: Round, s: Signal, balance: real, c: Config)
    requires c.maxDrawdownPct > 0.0 && l.equity == balance + l.cumulativePnl && l.peak >= l.equity && WithinLimit(l, c)
    requires l.maxDrawdown >= l.peak - l.equity && (c.stake >= 0.0 || c.cashout <= 1.0 || l.peak > 0.0)
    ensures WithinLimit(Played(l, r, s, balance, c), c)
  {
    var today := NewDay(l, r.day);
    if SimulateRisk(s, today, c).Approved? { BookingStaysWithinLimit(today, r.crashPoint >= c.cashout, balance, c); }
  }

  /** Over every run the largest drawdown is below the limit at the peak plus one loss. */
  lemma {:induction false} DrawdownIsBounded(rounds: seq<Round>, i: nat, p: Predictor, balance: real, c: Config)
    requires i <= |rounds| && LocksInTime(c, balance)
    ensures WithinLimit(LedgerAt(rounds, i, p, balance, c), c)
  {
    if NeverEnters(c, balance) {
      Untouched(rounds, i, p, balance, c);
    } else if i > MIN_HISTORY {
      DrawdownIsBounded(rounds, i - 1, p, balance, c);
      EquityIsBooked(rounds, i - 1, p, balance, c);
      PlayedStaysWithinLimit(LedgerAt(rounds, i - 1, p, balance, c), rounds[i - 1], p(rounds[..i - 1], rounds[i - 1]), balance, c);
    }
  }

  ghost predicate AlwaysWithinLimit(c: Config, balance: real) {
    forall rounds: seq<Round>, i: nat, p: Predictor ::
      i <= |rounds| ==> WithinLimit(LedgerAt(rounds, i, p, balance, c), c)
  }

  lemma {:induction false} Negative(x: real, y: real)
    requires x < 0.0 && y > 0.0
    ensures x * y < 0.0
  {}

  lemma {:induction false} LimitOfNothing(balance: real, c: Config)
    requires balance <= 0.0 && c.maxDrawdownPct >= 0.0
    ensures LimitAt(balance, c) <= 0.0
  {
    LimitGrows(balance, 0.0, c);
  }

  lemma {:induction false} LossFromNothing(c: Config, balance: real)
    requires !LocksInTime(c, balance)
    ensures !WithinLimit(LedgerAt(PayingRounds(c), MIN_HISTORY + 1, Approving(c), balance, c), c)
  {
    OneWin(balance, c);
    Negative(c.stake, c.cashout - 1.0);
    LimitOfNothing(balance, c);
    assert WorstLoss(c) == -Pnl(true, c);
  }

  /** The bound holds over all runs from a balance exactly when the lock-out is in time. */
  lemma {:induction false} AlwaysWithinLimitIff(c: Config, balance: real)
    ensures AlwaysWithinLimit(c, balance) <==> LocksInTime(c, balance)
  {
    if LocksInTime(c, balance) {
      forall rounds: seq<Round>, i: nat, p: Predictor | i <= |rounds|
        ensures WithinLimit(LedgerAt(rounds, i, p, balance, c), c)
      {
        DrawdownIsBounded(rounds, i, p, balance, c);
      }
    } else {
      LossFromNothing(c, balance);
    }
  }
}
