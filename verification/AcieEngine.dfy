/** The continuous-learning loop: a bounded history of crash points, a bounded set of seen round ids, streak counters. */
module AcieEngine {
  import CalibrationMetrics
  import opened Decimals
  import opened OnlineState
  import opened Sequences
  import opened Wrappers

  const MAX_IDS := 5000

  /** A completed round with the prediction context the learner pairs it with; no point stands for one that is not a finite number. */
  datatype Crash = Crash(id: string, point: Option<real>, learn: bool, psi: real, scores: seq<real>)

  /** The engine without its learner. */
  datatype Engine = Engine(points: seq<real>, losses: nat, processed: seq<string>)

  datatype Result = Duplicate | Invalid | Recorded

  // ---------------------------------------------------------------- the rescan

  /** The number of points below the target at the end of the list. */
  function TailBelow(points: seq<real>): nat {
    if points == [] || points[|points| - 1] >= TARGET then 0 else TailBelow(points[..|points| - 1]) + 1
  }

  function TailAbove(points: seq<real>): nat {
    if points == [] || points[|points| - 1] < TARGET then 0 else TailAbove(points[..|points| - 1]) + 1
  }

  /** The backward scan of the sequence state. */
  method ScanStreaks(points: seq<real>) returns (below: nat, above: nat)
    ensures below == TailBelow(points) && above == TailAbove(points)
  {
    below, above := 0, 0;
    var i := |points|;
    assert points[..i] == points;
    while i > 0
      invariant 0 <= i <= |points|
      invariant below == 0 || above == 0
      invariant i < |points| ==> below + above > 0
      invariant above == 0 ==> TailBelow(points) == below + TailBelow(points[..i])
      invariant below == 0 ==> TailAbove(points) == above + TailAbove(points[..i])
      invariant above > 0 ==> TailBelow(points) == 0
      invariant below > 0 ==> TailAbove(points) == 0
    {
      assert points[..i][..i - 1] == points[..i - 1] && points[..i][i - 1] == points[i - 1];
      if points[i - 1] < TARGET {
        if above > 0 { break; }
        below := below + 1;
      } else {
        if below > 0 { break; }
        above := above + 1;
      }
      i := i - 1;
    }
  }

  // ---------------------------------------------------------------- one crash

  /** Remember an id that is not empty, forgetting the oldest beyond the bound. */
  function Marked(processed: seq<string>, id: string): seq<string> {
    if id == "" then processed
    else
      var longer := processed + [id];
      if |longer| > MAX_IDS then longer[1..] else longer
  }

  function Outcome(e: Engine, c: Crash): Result {
    if c.id != "" && c.id in e.processed then Duplicate
    else if c.point.None? || c.point.value <= 0.0 then Invalid
    else Recorded
  }

  /** The id is remembered before the crash point is checked. */
  function Ingested(e: Engine, c: Crash, maxHistory: nat): Engine {
    match Outcome(e, c)
    case Duplicate => e
    case Invalid => e.(processed := Marked(e.processed, c.id))
    case Recorded =>
      Engine(
        Last(e.points + [c.point.value], maxHistory),
        if c.point.value < TARGET then e.losses + 1 else 0,
        Marked(e.processed, c.id))
  }

  /** The learner is updated by a recorded crash unless learning is frozen. */
  function Learned(online: Online, r: Result, c: Crash, w: Windows): Online
    requires r.Recorded? ==> c.point.Some?
    requires |online.weights| == |c.scores| && |online.buckets| == CalibrationMetrics.BIN_COUNT
  {
    if r.Recorded? && c.learn then Updated(online, Update(c.point.value, c.psi, c.scores), w) else online
  }

  // ---------------------------------------------------------------- seeding and snapshots

  /** Seeding stops at a round that is rejected with an exception. */
  datatype Seed = Seed(engine: Engine, ok: bool)

  function Seeded(e: Engine, cs: seq<Crash>, h: nat): Seed
    decreases |cs|
  {
    if cs == [] then Seed(e, true)
    else if Outcome(e, cs[0]).Invalid? then Seed(Ingested(e, cs[0], h), false)
    else Seeded(Ingested(e, cs[0], h), cs[1..], h)
  }

  datatype Snapshot = Snapshot(points: seq<real>, losses: nat, online: Online)

  function RestoreId(i: nat): string {
    "restore-" + Digits(i)
  }

  /** The rounds a snapshot is replayed as. */
  function Restoring(points: seq<real>): (cs: seq<Crash>)
    ensures |cs| == |points|
  {
    seq(|points|, i requires 0 <= i < |points| => Crash(RestoreId(i), Some(points[i]), true, 0.0, []))
  }

  /** `importSnapshot`: replay the points, then overwrite the counter. */
  function Imported(e: Engine, s: Snapshot, h: nat): Seed {
    var seeded := Seeded(e, Last(Restoring(s.points), h), h);
    if seeded.ok then seeded.(engine := seeded.engine.(losses := s.losses)) else seeded
  }

  class ACIEEngine {
    const maxHistory: nat
    const windows: Windows
    var crashPoints: seq<real>
    var consecutiveLosses: nat
    /** The id set in insertion order. */
    var processedRoundIds: seq<string>
    var online: Online

    ghost function View(): Engine
      reads `crashPoints, `consecutiveLosses, `processedRoundIds
    {
      Engine(crashPoints, consecutiveLosses, processedRoundIds)
    }

    constructor (maxHistory: nat, windows: Windows)
      requires 0 < maxHistory
      ensures View() == FRESH && online == Initial() && this.maxHistory == maxHistory && this.windows == windows
    {
      this.maxHistory, this.windows := maxHistory, windows;
      crashPoints, consecutiveLosses, processedRoundIds, online := [], 0, [], Initial();
    }

    /** Everything but the learner. `Invalid` is the exception for a crash point that is not positive and finite. */
    method Record(c: Crash) returns (r: Result)
      requires 0 < maxHistory
      modifies `crashPoints, `consecutiveLosses, `processedRoundIds
      ensures r == Outcome(old(View()), c) && View() == Ingested(old(View()), c, maxHistory)
    {
      if c.id != "" && c.id in processedRoundIds { return Duplicate; }
      if c.id != "" {
        processedRoundIds := processedRoundIds + [c.id];
        if |processedRoundIds| > MAX_IDS {
          processedRoundIds := processedRoundIds[1..];
        }
      }
      if c.point.None? || c.point.value <= 0.0 { return Invalid; }
      crashPoints := crashPoints + [c.point.value];
      if |crashPoints| > maxHistory {
        crashPoints := crashPoints[|crashPoints| - maxHistory..];
      }
      consecutiveLosses := if c.point.value < TARGET then consecutiveLosses + 1 else 0;
      return Recorded;
    }

    /** The history part of seeding; false is an exception that leaves the rounds before it in place. */
    method SeedHistory(rounds: seq<Crash>) returns (ok: bool)
      requires 0 < maxHistory
      modifies `crashPoints, `consecutiveLosses, `processedRoundIds
      ensures Seed(View(), ok) == Seeded(old(View()), Last(rounds, maxHistory), maxHistory)
    {
      var recent := Last(rounds, maxHistory);
      ghost var expected := Seeded(View(), recent, maxHistory);
      for i := 0 to |recent|
        invariant expected == Seeded(View(), recent[i..], maxHistory)
      {
        assert recent[i..][1..] == recent[i + 1..];
        var r := Record(recent[i]);
        if r.Invalid? { return false; }
      }
      return true;
    }

    method ExportSnapshot() returns (s: Snapshot)
      ensures s == Snapshot(Last(crashPoints, maxHistory), consecutiveLosses, online)
    {
      s := Snapshot(Last(crashPoints, maxHistory), consecutiveLosses, online);
    }

    method ImportSnapshot(s: Snapshot) returns (ok: bool)
      requires 0 < maxHistory
      modifies this
      ensures Seed(View(), ok) == Imported(old(View()), s, maxHistory)
      ensures ok ==> online == s.online
    {
      ok := true;
      if s.points != [] {
        ok := SeedHistory(Restoring(s.points));
        if !ok { return; }
      }
      online := s.online;
      consecutiveLosses := s.losses;
    }

    method IngestCrash(c: Crash) returns (r: Result)
      requires 0 < maxHistory
      requires |online.weights| == |c.scores| && |online.buckets| == CalibrationMetrics.BIN_COUNT
      modifies this
      ensures r == Outcome(old(View()), c) && View() == Ingested(old(View()), c, maxHistory)
      ensures online == Learned(old(online), r, c, windows)
    {
      r := Record(c);
      if r.Recorded? && c.learn {
        online := ApplyOnlineUpdate(online, Update(c.point.value, c.psi, c.scores), windows);
      }
    }
  }

  const FRESH := Engine([], 0, [])

  // ---------------------------------------------------------------- runs

  function PointOf(e: Engine, c: Crash): seq<real> {
    if Outcome(e, c).Recorded? then [c.point.value] else []
  }

  function MarkOf(e: Engine, c: Crash): seq<string> {
    if Outcome(e, c) != Duplicate && c.id != "" then [c.id] else []
  }

  function Run(e: Engine, cs: seq<Crash>, h: nat): Engine
    decreases |cs|
  {
    if cs == [] then e else Run(Ingested(e, cs[0], h), cs[1..], h)
  }

  /** The points of the recorded crashes, in order. */
  function Accepted(e: Engine, cs: seq<Crash>, h: nat): seq<real>
    decreases |cs|
  {
    if cs == [] then []
    else PointOf(e, cs[0]) + Accepted(Ingested(e, cs[0], h), cs[1..], h)
  }

  /** The ids in the order in which they were remembered. */
  function Marks(e: Engine, cs: seq<Crash>, h: nat): seq<string>
    decreases |cs|
  {
    if cs == [] then []
    else MarkOf(e, cs[0]) + Marks(Ingested(e, cs[0], h), cs[1..], h)
  }

  lemma {:induction false} LastAfterAppend<T>(s: seq<T>, x: T, n: nat)
    ensures Last(Last(s, n) + [x], n) == Last(s + [x], n)
  {}

  /** The history is the bounded suffix of the accepted points and the counter their full trailing streak. */
  predicate Tracks(e: Engine, accepted: seq<real>, h: nat) {
    e.points == Last(accepted, h) && e.losses == TailBelow(accepted)
  }

  lemma {:induction false} IngestTracks(e: Engine, accepted: seq<real>, c: Crash, h: nat)
    requires Tracks(e, accepted, h)
    ensures Tracks(Ingested(e, c, h), accepted + PointOf(e, c), h)
  {
    if Outcome(e, c).Recorded? {
      LastAfterAppend(accepted, c.point.value, h);
      assert (accepted + [c.point.value])[..|accepted|] == accepted;
    } else {
      assert accepted + [] == accepted;
    }
  }

  lemma {:induction false} RunTracks(e: Engine, accepted: seq<real>, cs: seq<Crash>, h: nat)
    requires Tracks(e, accepted, h)
    ensures Tracks(Run(e, cs, h), accepted + Accepted(e, cs, h), h)
    decreases |cs|
  {
    if cs == [] {
      assert accepted + [] == accepted;
    } else {
      var one := PointOf(e, cs[0]);
      IngestTracks(e, accepted, cs[0], h);
      RunTracks(Ingested(e, cs[0], h), accepted + one, cs[1..], h);
      assert (accepted + one) + Accepted(Ingested(e, cs[0], h), cs[1..], h) == accepted + Accepted(e, cs, h);
    }
  }

  /** A window sees the trailing streak up to its own length. */
  lemma {:induction false} TailOfWindow(s: seq<real>, n: nat)
    ensures TailBelow(Last(s, n)) == Min(TailBelow(s), |Last(s, n)|)
    decreases |s|
  {
    if s != [] && n > 0 {
      TailOfWindow(s[..|s| - 1], n - 1);
      var window := Last(s, n);
      assert window[..|window| - 1] == Last(s[..|s| - 1], n - 1);
    }
  }

  /**
   * From a fresh engine, after any list of crashes, the history is the bounded suffix of the recorded points, and
   * the incremental loss counter, cut to the window, is what a full rescan finds.
   */
  lemma {:induction false} CounterAgreesWithRescan(cs: seq<Crash>, h: nat)
    ensures var e, all := Run(FRESH, cs, h), Accepted(FRESH, cs, h);
      && e.points == Last(all, h)
      && e.losses == TailBelow(all)
      && Min(e.losses, |e.points|) == TailBelow(e.points)
  {
    RunTracks(FRESH, [], cs, h);
    var all := Accepted(FRESH, cs, h);
    assert [] + all == all;
    TailOfWindow(all, h);
  }

  /** A learner kept beside the engine, crash by crash. */
  function Learn(e: Engine, online: Online, cs: seq<Crash>, h: nat, w: Windows): Online
    requires |online.weights| == MODELS && |online.buckets| == CalibrationMetrics.BIN_COUNT
    requires SevenScores(cs)
    decreases |cs|
  {
    if cs == [] then online
    else Learn(Ingested(e, cs[0], h), Learned(online, Outcome(e, cs[0]), cs[0], w), cs[1..], h, w)
  }

  predicate SevenScores(cs: seq<Crash>) {
    cs == [] || (|cs[0].scores| == MODELS && SevenScores(cs[1..]))
  }

  predicate AlwaysLearns(cs: seq<Crash>) {
    cs == [] || (cs[0].learn && AlwaysLearns(cs[1..]))
  }

  /** One recorded crash keeps the learner's own streak counter equal to the engine's, exactly when it is learnt or changes neither. */
  lemma {:induction false} StreakStep(e: Engine, online: Online, c: Crash, h: nat, w: Windows)
    requires |online.weights| == |c.scores| && |online.buckets| == CalibrationMetrics.BIN_COUNT
    requires online.consecutiveBelow == e.losses
    ensures Learned(online, Outcome(e, c), c, w).consecutiveBelow == Ingested(e, c, h).losses
      <==> !Outcome(e, c).Recorded? || c.learn || (c.point.value >= TARGET && e.losses == 0)
  {}

  /** With learning always on the two counters agree over every run. */
  lemma {:induction false} StreaksAgree(e: Engine, online: Online, cs: seq<Crash>, h: nat, w: Windows)
    requires |online.weights| == MODELS && |online.buckets| == CalibrationMetrics.BIN_COUNT
    requires SevenScores(cs) && AlwaysLearns(cs) && online.consecutiveBelow == e.losses
    ensures Learn(e, online, cs, h, w).consecutiveBelow == Run(e, cs, h).losses
    decreases |cs|
  {
    if cs != [] {
      StreakStep(e, online, cs[0], h, w);
      StreaksAgree(Ingested(e, cs[0], h), Learned(online, Outcome(e, cs[0]), cs[0], w), cs[1..], h, w);
    }
  }

  lemma {:induction false} TailAboveGrows(points: seq<real>, x: real)
    ensures TailAbove(points + [x]) == if x >= 1.3 then TailAbove(points) + 1 else 0
  {
    assert (points + [x])[..|points|] == points;
  }

  /** With learning always on, the learner's streak of rounds at or above the target is that of the recorded points. */
  lemma {:induction false} AboveStreaksAgree(e: Engine, online: Online, before: seq<real>, cs: seq<Crash>, h: nat, w: Windows)
    requires |online.weights| == MODELS && |online.buckets| == CalibrationMetrics.BIN_COUNT
    requires SevenScores(cs) && AlwaysLearns(cs) && online.consecutiveAbove == TailAbove(before)
    ensures Learn(e, online, cs, h, w).consecutiveAbove == TailAbove(before + Accepted(e, cs, h))
    decreases |cs|
  {
    if cs == [] {
      assert before + [] == before;
    } else {
      var one := PointOf(e, cs[0]);
      if one != [] { TailAboveGrows(before, one[0]); } else { assert before + one == before; }
      AboveStreaksAgree(Ingested(e, cs[0], h), Learned(online, Outcome(e, cs[0]), cs[0], w), before + one, cs[1..], h, w);
      Regroup(before, one, Accepted(Ingested(e, cs[0], h), cs[1..], h));
    }
  }

  // ---------------------------------------------------------------- remembered ids

  /** The set holds the most recently remembered ids, all different. */
  ghost predicate Remembers(processed: seq<string>, marks: seq<string>) {
    && processed == Last(marks, MAX_IDS)
    && forall i, j :: 0 <= i < j < |marks| && j - i <= MAX_IDS ==> marks[i] != marks[j]
  }

  lemma {:induction false} IngestRemembers(e: Engine, marks: seq<string>, c: Crash, h: nat)
    requires Remembers(e.processed, marks)
    ensures Remembers(Ingested(e, c, h).processed, marks + MarkOf(e, c))
  {
    if MarkOf(e, c) == [] {
      assert marks + [] == marks;
    } else {
      LastAfterAppend(marks, c.id, MAX_IDS);
      forall i | 0 <= i < |marks| && |marks| - i <= MAX_IDS ensures marks[i] != c.id {
        assert marks[i] == e.processed[i - (|marks| - |e.processed|)];
      }
    }
  }

  lemma {:induction false} RunRemembers(e: Engine, marks: seq<string>, cs: seq<Crash>, h: nat)
    requires Remembers(e.processed, marks)
    ensures Remembers(Run(e, cs, h).processed, marks + Marks(e, cs, h))
    decreases |cs|
  {
    if cs == [] {
      assert marks + [] == marks;
    } else {
      IngestRemembers(e, marks, cs[0], h);
      var next := Ingested(e, cs[0], h);
      RunRemembers(next, marks + MarkOf(e, cs[0]), cs[1..], h);
      assert (marks + MarkOf(e, cs[0])) + Marks(next, cs[1..], h) == marks + Marks(e, cs, h);
    }
  }

  /** Over every run no id is remembered twice within 5000 remembered ids, and the set is exactly the last 5000 of them. */
  lemma {:induction false} IdsDoNotRepeat(cs: seq<Crash>, h: nat)
    ensures Remembers(Run(FRESH, cs, h).processed, Marks(FRESH, cs, h))
  {
    RunRemembers(FRESH, [], cs, h);
    assert [] + Marks(FRESH, cs, h) == Marks(FRESH, cs, h);
  }

  /**
   * After every run: a crash is a duplicate exactly when it has an id and that is among the last 5000 remembered; otherwise it
   * is recorded exactly when its point is a positive number, and then the history ends with it and the loss counter counts it.
   */
  lemma {:induction false} CrashesAreJudged(cs: seq<Crash>, c: Crash, h: nat)
    requires 0 < h
    ensures var e, known := Run(FRESH, cs, h), c.id != "" && c.id in Last(Marks(FRESH, cs, h), 5000);
      var next, r := Ingested(e, c, h), Outcome(e, c);
      && (r == Duplicate <==> known)
      && (r == Recorded <==> !known && c.point.Some? && c.point.value > 0.0)
      && (r != Recorded ==> next.points == e.points && next.losses == e.losses)
      && (r == Recorded ==>
            && next.points != [] && next.points[|next.points| - 1] == c.point.value
            && next.losses == if c.point.value < 1.3 then e.losses + 1 else 0)
      && (c.id != "" ==> c.id in next.processed)
  {
    IdsDoNotRepeat(cs, h);
    var marked := Marked(Run(FRESH, cs, h).processed, c.id);
    if c.id != "" { assert marked[|marked| - 1] == c.id; }
  }

  /** A rejected crash still uses up its id: the corrected report of the same round is dropped as a duplicate. */
  lemma {:induction false} RejectionUsesUpTheId(e: Engine, bad: Crash, good: Crash, h: nat)
    requires Outcome(e, bad).Invalid? && bad.id == good.id != ""
    ensures Outcome(Ingested(e, bad, h), good).Duplicate?
  {
    var marked := Marked(e.processed, bad.id);
    assert marked[|marked| - 1] == bad.id;
  }
}
