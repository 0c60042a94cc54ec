/** What a snapshot of the learning engine restores. */
module AcieSnapshot {
  import opened Decimals
  import opened OnlineState
  import opened Sequences
  import opened AcieEngine
  import opened Wrappers

  function PointsOf(cs: seq<Crash>): seq<real> {
    if cs == [] then [] else (if cs[0].point.Some? then [cs[0].point.value] else []) + PointsOf(cs[1..])
  }

  function IdsOf(cs: seq<Crash>): seq<string> {
    if cs == [] then [] else [cs[0].id] + IdsOf(cs[1..])
  }

  /** Every round has a positive crash point and an id of its own that is not remembered yet. */
  ghost predicate AllNew(cs: seq<Crash>, processed: seq<string>) {
    && (forall i :: 0 <= i < |cs| ==>
          cs[i].id != "" && cs[i].id !in processed && cs[i].point.Some? && cs[i].point.value > 0.0)
    && (forall i, j :: 0 <= i < j < |cs| ==> cs[i].id != cs[j].id)
  }

  /** Rounds that are all new are all recorded. */
  lemma {:induction false} SeedingRecordsNewRounds(e: Engine, accepted: seq<real>, cs: seq<Crash>, h: nat)
    requires AllNew(cs, e.processed) && Tracks(e, accepted, h)
    ensures var s := Seeded(e, cs, h);
      && s.ok && Tracks(s.engine, accepted + PointsOf(cs), h)
      && (|e.processed| + |cs| <= MAX_IDS ==> s.engine.processed == e.processed + IdsOf(cs))
    decreases |cs|
  {
    if cs == [] {
      assert accepted + [] == accepted && e.processed + [] == e.processed;
    } else {
      var one, next := [cs[0].point.value], Ingested(e, cs[0], h);
      IngestTracks(e, accepted, cs[0], h);
      SeedingRecordsNewRounds(next, accepted + one, cs[1..], h);
      Regroup(accepted, one, PointsOf(cs[1..]));
      Regroup(e.processed, [cs[0].id], IdsOf(cs[1..]));
    }
  }

  lemma {:induction false} SeedingSkipsKnownRounds(e: Engine, cs: seq<Crash>, h: nat)
    requires forall i :: 0 <= i < |cs| ==> cs[i].id != "" && cs[i].id in e.processed
    ensures Seeded(e, cs, h) == Seed(e, true)
    decreases |cs|
  {
    if cs != [] { SeedingSkipsKnownRounds(e, cs[1..], h); }
  }

  lemma {:induction false} RestoreIdsDiffer(i: nat, j: nat)
    requires RestoreId(i) == RestoreId(j)
    ensures i == j
  {
    var prefix := "restore-";
    assert (prefix + Digits(i))[|prefix|..] == Digits(i) && (prefix + Digits(j))[|prefix|..] == Digits(j);
    DigitsRoundTrip(i);
    DigitsRoundTrip(j);
  }

  ghost predicate AllPositive(points: seq<real>) {
    forall i :: 0 <= i < |points| ==> points[i] > 0.0
  }

  lemma {:induction false} RestoringIsNew(points: seq<real>)
    requires AllPositive(points)
    ensures AllNew(Restoring(points), [])
  {
    var cs := Restoring(points);
    forall i, j | 0 <= i < j < |cs| ensures cs[i].id != cs[j].id {
      if cs[i].id == cs[j].id { RestoreIdsDiffer(i, j); }
    }
  }

  lemma {:induction false} RestoredPoints(cs: seq<Crash>, points: seq<real>)
    requires |cs| == |points| && forall i :: 0 <= i < |cs| ==> cs[i].point == Some(points[i])
    ensures PointsOf(cs) == points
  {
    if cs != [] { RestoredPoints(cs[1..], points[1..]); }
  }

  lemma {:induction false} AcceptedArePositive(e: Engine, cs: seq<Crash>, h: nat)
    ensures AllPositive(Accepted(e, cs, h))
    decreases |cs|
  {
    if cs != [] { AcceptedArePositive(Ingested(e, cs[0], h), cs[1..], h); }
  }

  lemma {:induction false} SeedingFresh(e: Engine, cs: seq<Crash>, points: seq<real>, h: nat)
    requires e == FRESH && AllNew(cs, []) && |cs| <= h && PointsOf(cs) == points && |points| <= h
    ensures var s := Seeded(e, cs, h);
      s.ok && s.engine.points == points && (|cs| <= MAX_IDS ==> s.engine.processed == IdsOf(cs))
  {
    SeedingRecordsNewRounds(e, [], cs, h);
    assert [] + points == points && [] + IdsOf(cs) == IdsOf(cs);
  }

  lemma {:induction false} ImportIntoFresh(e: Engine, s: Snapshot, h: nat)
    requires e == FRESH && AllPositive(s.points) && |s.points| <= h
    ensures var i := Imported(e, s, h);
      && i.ok && i.engine.points == s.points && i.engine.losses == s.losses
      && (|s.points| <= MAX_IDS ==> i.engine.processed == IdsOf(Restoring(s.points)))
  {
    var cs := Restoring(s.points);
    RestoringIsNew(s.points);
    RestoredPoints(cs, s.points);
    SeedingFresh(e, cs, s.points, h);
    assert Last(cs, h) == cs;
  }

  lemma {:induction false} HistoryIsPositive(cs: seq<Crash>, h: nat)
    ensures var e := Run(FRESH, cs, h); AllPositive(e.points) && |e.points| <= h
  {
    CounterAgreesWithRescan(cs, h);
    AcceptedArePositive(FRESH, cs, h);
  }

  /** After any run, a snapshot restored into a fresh engine brings back the history and the full loss counter. */
  lemma {:induction false} SnapshotRoundTrip(cs: seq<Crash>, online: Online, h: nat)
    ensures var e := Run(FRESH, cs, h);
      var i := Imported(FRESH, Snapshot(Last(e.points, h), e.losses, online), h);
      i.ok && i.engine.points == e.points && i.engine.losses == e.losses
  {
    var e := Run(FRESH, cs, h);
    HistoryIsPositive(cs, h);
    ImportIntoFresh(FRESH, Snapshot(e.points, e.losses, online), h);
  }

  lemma {:induction false} IdsAt(cs: seq<Crash>, i: nat)
    requires i < |cs|
    ensures cs[i].id in IdsOf(cs)
  {
    if i > 0 { IdsAt(cs[1..], i - 1); }
  }

  // ---------------------------------------------------------------- importing into any engine

  ghost predicate AllValid(cs: seq<Crash>) {
    forall i :: 0 <= i < |cs| ==> cs[i].id != "" && cs[i].point.Some? && cs[i].point.value > 0.0
  }

  lemma {:induction false} ValidRoundsAreReplayed(e: Engine, cs: seq<Crash>, h: nat)
    requires AllValid(cs)
    ensures Seeded(e, cs, h) == Seed(Run(e, cs, h), true)
    decreases |cs|
  {
    if cs != [] { ValidRoundsAreReplayed(Ingested(e, cs[0], h), cs[1..], h); }
  }

  lemma {:induction false} RunAppendsPoints(e: Engine, before: seq<real>, cs: seq<Crash>, h: nat)
    requires e.points == Last(before, h)
    ensures Run(e, cs, h).points == Last(before + Accepted(e, cs, h), h)
    decreases |cs|
  {
    if cs == [] {
      assert before + [] == before;
    } else {
      var one := PointOf(e, cs[0]);
      if one != [] { LastAfterAppend(before, one[0], h); }
      assert one == [] ==> before + one == before;
      RunAppendsPoints(Ingested(e, cs[0], h), before + one, cs[1..], h);
      Regroup(before, one, Accepted(Ingested(e, cs[0], h), cs[1..], h));
    }
  }

  /** Whatever the engine has seen, an import appends the points whose ids it does not remember, and takes over the counter. */
  lemma {:induction false} ImportAppendsTheReplayed(e: Engine, s: Snapshot, h: nat)
    requires AllPositive(s.points) && |e.points| <= h
    ensures var i := Imported(e, s, h);
      && i.ok && i.engine.losses == s.losses
      && i.engine.points == Last(e.points + Accepted(e, Last(Restoring(s.points), h), h), h)
  {
    ValidRoundsAreReplayed(e, Last(Restoring(s.points), h), h);
    RunAppendsPoints(e, e.points, Last(Restoring(s.points), h), h);
  }

  /** The ids of `processed` that are still remembered after `i` more. */
  function Surviving(processed: seq<string>, i: nat): seq<string> {
    if |processed| + i <= MAX_IDS then processed
    else if i >= MAX_IDS then []
    else processed[|processed| + i - MAX_IDS..]
  }

  /** No round is remembered when its turn comes, all rounds before it having been recorded. */
  ghost predicate NoneSurvives(processed: seq<string>, cs: seq<Crash>) {
    forall i :: 0 <= i < |cs| ==> cs[i].id !in Surviving(processed, i)
  }

  ghost predicate DistinctRounds(cs: seq<Crash>) {
    forall i, j :: 0 <= i < j < |cs| ==> cs[i].id != cs[j].id
  }

  lemma {:induction false} SurvivingAfterMark(processed: seq<string>, id: string, i: nat, x: string)
    requires |processed| <= MAX_IDS && id != "" && x != id
    ensures x in Surviving(Marked(processed, id), i) <==> x in Surviving(processed, i + 1)
  {
    var longer := processed + [id];
    if |processed| + i + 1 <= MAX_IDS {
      assert Surviving(Marked(processed, id), i) == longer;
    } else if i + 1 < MAX_IDS {
      var at := |processed| + i + 1 - MAX_IDS;
      assert Surviving(Marked(processed, id), i) == longer[at..] == processed[at..] + [id];
    } else if i < MAX_IDS {
      assert Surviving(Marked(processed, id), i) == longer[|processed|..] == [id];
    }
  }

  lemma {:induction false} NoneSurvivesRest(processed: seq<string>, cs: seq<Crash>)
    requires cs != [] && |processed| <= MAX_IDS && DistinctRounds(cs) && cs[0].id != ""
    ensures NoneSurvives(processed, cs)
      <==> cs[0].id !in processed && NoneSurvives(Marked(processed, cs[0].id), cs[1..])
  {
    var rest, marked := cs[1..], Marked(processed, cs[0].id);
    assert Surviving(processed, 0) == processed;
    if NoneSurvives(processed, cs) {
      forall i | 0 <= i < |rest| ensures rest[i].id !in Surviving(marked, i) {
        SurvivingAfterMark(processed, cs[0].id, i, cs[i + 1].id);
      }
    }
    if cs[0].id !in processed && NoneSurvives(marked, rest) {
      forall i | 0 <= i < |cs| ensures cs[i].id !in Surviving(processed, i) {
        if i > 0 {
          assert cs[i] == rest[i - 1];
          SurvivingAfterMark(processed, cs[0].id, i - 1, cs[i].id);
        }
      }
    }
  }

  lemma {:induction false} AcceptedAtMost(e: Engine, cs: seq<Crash>, h: nat)
    ensures |Accepted(e, cs, h)| <= |cs|
    decreases |cs|
  {
    if cs != [] { AcceptedAtMost(Ingested(e, cs[0], h), cs[1..], h); }
  }

  lemma {:induction false} AllRecordedIff(e: Engine, cs: seq<Crash>, h: nat)
    requires AllValid(cs) && DistinctRounds(cs) && |e.processed| <= MAX_IDS
    ensures |PointsOf(cs)| == |cs|
    ensures Accepted(e, cs, h) == PointsOf(cs) <==> NoneSurvives(e.processed, cs)
    ensures |Accepted(e, cs, h)| < |cs| <==> !NoneSurvives(e.processed, cs)
    decreases |cs|
  {
    if cs != [] {
      var next := Ingested(e, cs[0], h);
      NoneSurvivesRest(e.processed, cs);
      AllRecordedIff(next, cs[1..], h);
      if cs[0].id in e.processed {
        AcceptedAtMost(next, cs[1..], h);
      } else {
        assert Accepted(e, cs, h)[1..] == Accepted(next, cs[1..], h) && PointsOf(cs)[1..] == PointsOf(cs[1..]);
      }
    }
  }

  lemma {:induction false} SuffixIsValid(cs: seq<Crash>, n: nat)
    requires AllValid(cs) && DistinctRounds(cs)
    ensures AllValid(Last(cs, n)) && DistinctRounds(Last(cs, n))
  {
    var last := Last(cs, n);
    var off := |cs| - |last|;
    forall i | 0 <= i < |last| ensures last[i].id != "" && last[i].point.Some? && last[i].point.value > 0.0 {
      assert last[i] == cs[off + i];
    }
    forall i, j | 0 <= i < j < |last| ensures last[i].id != last[j].id {
      assert last[i] == cs[off + i] && last[j] == cs[off + j];
    }
  }

  lemma {:induction false} ReplayIsValid(points: seq<real>, h: nat)
    requires AllPositive(points)
    ensures AllValid(Last(Restoring(points), h)) && DistinctRounds(Last(Restoring(points), h))
    ensures |Last(Restoring(points), h)| == |Last(points, h)|
  {
    RestoringIsNew(points);
    SuffixIsValid(Restoring(points), h);
  }

  lemma {:induction false} ReplayedPoints(points: seq<real>, h: nat)
    ensures PointsOf(Last(Restoring(points), h)) == Last(points, h)
  {
    RestoredPoints(Last(Restoring(points), h), Last(points, h));
  }

  /** An import replays every point exactly when none of the ids it uses is still remembered at its turn. */
  lemma {:induction false} EveryPointIsReplayedIff(e: Engine, s: Snapshot, h: nat)
    requires AllPositive(s.points) && |e.points| <= h && |e.processed| <= MAX_IDS
    ensures Accepted(e, Last(Restoring(s.points), h), h) == Last(s.points, h)
      <==> NoneSurvives(e.processed, Last(Restoring(s.points), h))
  {
    var cs := Last(Restoring(s.points), h);
    ReplayIsValid(s.points, h);
    AllRecordedIff(e, cs, h);
    ReplayedPoints(s.points, h);
  }

  /** Where every point is replayed, the history is restored exactly when the engine had none or the snapshot fills it. */
  lemma {:induction false} RestoresTheHistoryIff(e: Engine, s: Snapshot, h: nat)
    requires AllPositive(s.points) && 0 < h && |e.points| <= h && |e.processed| <= MAX_IDS
    requires NoneSurvives(e.processed, Last(Restoring(s.points), h))
    ensures Imported(e, s, h).engine.points == Last(e.points + Last(s.points, h), h)
    ensures Imported(e, s, h).engine.points == Last(s.points, h) <==> e.points == [] || |s.points| >= h
  {
    var replayed := Last(s.points, h);
    EveryPointIsReplayedIff(e, s, h);
    ImportAppendsTheReplayed(e, s, h);
    if |s.points| >= h {
      LastOfLonger(e.points, replayed, h);
    } else if e.points == [] {
      assert e.points + replayed == replayed;
    } else {
      assert |Last(e.points + replayed, h)| > |replayed|;
    }
  }

  /** The id of the `i`-th round of the replay of `n` points. */
  function ReplayId(n: nat, h: nat, i: nat): string {
    RestoreId(if n > h then n - h + i else i)
  }

  /** The replay of a snapshot of `n` points meets none of its ids. */
  ghost predicate FreeIds(processed: seq<string>, n: nat, h: nat) {
    forall i :: 0 <= i < n && i < h ==> ReplayId(n, h, i) !in Surviving(processed, i)
  }

  lemma {:induction false} ReplayedIds(points: seq<real>, h: nat)
    ensures var cs := Last(Restoring(points), h);
      && |cs| == Min(|points|, h)
      && forall i :: 0 <= i < |cs| ==> cs[i].id == ReplayId(|points|, h, i)
  {}

  lemma {:induction false} FreeIdsIff(processed: seq<string>, points: seq<real>, h: nat)
    ensures NoneSurvives(processed, Last(Restoring(points), h)) <==> FreeIds(processed, |points|, h)
  {
    var cs, n := Last(Restoring(points), h), |points|;
    ReplayedIds(points, h);
    if FreeIds(processed, n, h) {
      forall i | 0 <= i < |cs| ensures cs[i].id !in Surviving(processed, i) {
        assert ReplayId(n, h, i) !in Surviving(processed, i);
      }
    }
    if NoneSurvives(processed, cs) {
      forall i | 0 <= i < n && i < h ensures ReplayId(n, h, i) !in Surviving(processed, i) {
        assert cs[i].id == ReplayId(n, h, i);
      }
    }
  }

  /** A positive number the history does not end with. */
  function Another(points: seq<real>): real {
    if points != [] && points[|points| - 1] == 1.0 then 2.0 else 1.0
  }

  function Repeated(point: real, n: nat): seq<real> {
    seq(n, _ => point)
  }

  /** A history that does not end with `point` shows behind fewer of them than asked for. */
  lemma {:induction false} TooFewShow(points: seq<real>, replayed: seq<real>, asked: seq<real>, h: nat)
    requires |replayed| < |asked| <= h
    requires forall i :: 0 <= i < |asked| ==> asked[i] == Another(points)
    ensures Last(points + replayed, h) != asked
  {
    if points != [] {
      var all := points + replayed;
      var window := Last(all, h);
      assert window[|window| - 1 - |replayed|] == points[|points| - 1];
    }
  }

  lemma {:induction false} TakenIdsShortenTheReplay(e: Engine, s: Snapshot, h: nat)
    requires AllPositive(s.points) && |e.processed| <= MAX_IDS && !FreeIds(e.processed, |s.points|, h)
    ensures |Accepted(e, Last(Restoring(s.points), h), h)| < |Last(s.points, h)|
  {
    FreeIdsIff(e.processed, s.points, h);
    ReplayIsValid(s.points, h);
    AllRecordedIff(e, Last(Restoring(s.points), h), h);
  }

  /** If the ids of the replay are taken, a snapshot of equal points is not restored. */
  lemma {:induction false} EqualPointsAreNotRestored(e: Engine, s: Snapshot, n: nat, h: nat)
    requires |e.points| <= h && |e.processed| <= MAX_IDS && s.points == Repeated(Another(e.points), n)
    requires !FreeIds(e.processed, n, h)
    ensures Imported(e, s, h).engine.points != Last(s.points, h)
  {
    var replayed := Accepted(e, Last(Restoring(s.points), h), h);
    TakenIdsShortenTheReplay(e, s, h);
    TooFewShow(e.points, replayed, Last(s.points, h), h);
    ImportAppendsTheReplayed(e, s, h);
  }

  /** An engine restores the history of every snapshot of `n` points exactly when it remembers none of the ids the replay
      uses and has no history of its own that a short snapshot would leave in place. */
  lemma {:induction false} EverySnapshotIsRestoredIff(e: Engine, n: nat, h: nat)
    requires 0 < h && |e.points| <= h && |e.processed| <= MAX_IDS
    ensures (forall s: Snapshot | |s.points| == n && AllPositive(s.points) :: Imported(e, s, h).engine.points == Last(s.points, h))
      <==> FreeIds(e.processed, n, h) && (e.points == [] || n >= h)
  {
    forall s: Snapshot | |s.points| == n && AllPositive(s.points) && FreeIds(e.processed, n, h)
      ensures Imported(e, s, h).engine.points == Last(s.points, h) <==> e.points == [] || n >= h
    {
      FreeIdsIff(e.processed, s.points, h);
      RestoresTheHistoryIff(e, s, h);
    }
    var equal := Snapshot(Repeated(Another(e.points), n), 0, Initial());
    assert |equal.points| == n && AllPositive(equal.points);
    if !FreeIds(e.processed, n, h) { EqualPointsAreNotRestored(e, equal, n, h); }
  }

  lemma {:induction false} TailOfJoin(a: seq<real>, b: seq<real>)
    ensures TailBelow(a + b) == if TailBelow(b) < |b| then TailBelow(b) else |b| + TailBelow(a)
  {
    if b == [] {
      assert a + b == a;
    } else {
      TailOfJoin(a, b[..|b| - 1]);
      assert (a + b)[..|a + b| - 1] == a + b[..|b| - 1];
    }
  }

  lemma {:induction false} TailWithin(points: seq<real>)
    ensures TailBelow(points) <= |points|
  {
    if points != [] { TailWithin(points[..|points| - 1]); }
  }

  lemma {:induction false} CounterOfJoinIff(own: seq<real>, all: seq<real>, h: nat)
    requires 0 < h && |own| <= h
    ensures var points := Last(own + Last(all, h), h);
      Min(TailBelow(all), |points|) == TailBelow(points)
      <==> |all| >= h || TailBelow(all) < |all| || TailBelow(own) == 0
  {
    if |all| >= h {
      LastOfLonger(own, Last(all, h), h);
      TailOfWindow(all, h);
    } else {
      TailOfWindow(own + all, h);
      TailOfJoin(own, all);
      TailWithin(all);
      TailWithin(own);
    }
  }

  /** An imported counter is what a rescan of the imported history finds, exactly when the snapshot fills the history, or
      holds a round above the target, or the old history does not end with a round below it. `all` are the points the
      exporting engine has recorded. */
  lemma {:induction false} ImportedCounterAgreesIff(e: Engine, all: seq<real>, online: Online, h: nat)
    requires AllPositive(all) && 0 < h && |e.points| <= h && |e.processed| <= MAX_IDS
    requires NoneSurvives(e.processed, Last(Restoring(Last(all, h)), h))
    ensures var i := Imported(e, Snapshot(Last(all, h), TailBelow(all), online), h).engine;
      Min(i.losses, |i.points|) == TailBelow(i.points)
      <==> |all| >= h || TailBelow(all) < |all| || TailBelow(e.points) == 0
  {
    var s := Snapshot(Last(all, h), TailBelow(all), online);
    RestoresTheHistoryIff(e, s, h);
    ImportAppendsTheReplayed(e, s, h);
    CounterOfJoinIff(e.points, all, h);
  }

  /** The rounds whose ids are not in `processed`. */
  function Unseen(cs: seq<Crash>, processed: seq<string>): seq<Crash> {
    if cs == [] then []
    else (if cs[0].id in processed then [] else [cs[0]]) + Unseen(cs[1..], processed)
  }

  lemma {:induction false} UnseenIgnores(cs: seq<Crash>, processed: seq<string>, id: string)
    requires forall i :: 0 <= i < |cs| ==> cs[i].id != id
    ensures Unseen(cs, processed + [id]) == Unseen(cs, processed)
  {
    if cs != [] { UnseenIgnores(cs[1..], processed, id); }
  }

  /** While the id set has room, exactly the points with unknown ids are replayed. */
  lemma {:induction false} UnknownPointsAreReplayed(e: Engine, cs: seq<Crash>, h: nat)
    requires AllValid(cs) && DistinctRounds(cs) && |e.processed| + |cs| <= MAX_IDS
    ensures Accepted(e, cs, h) == PointsOf(Unseen(cs, e.processed))
    decreases |cs|
  {
    if cs != [] {
      UnknownPointsAreReplayed(Ingested(e, cs[0], h), cs[1..], h);
      if cs[0].id !in e.processed {
        UnseenIgnores(cs[1..], e.processed, cs[0].id);
        assert ([cs[0]] + Unseen(cs[1..], e.processed))[1..] == Unseen(cs[1..], e.processed);
      } else {
        assert [] + Unseen(cs[1..], e.processed) == Unseen(cs[1..], e.processed);
      }
    }
  }

  /** A second snapshot that is not longer than the first replays nothing: its ids are taken. Only its counter is restored. */
  lemma {:induction false} SecondImportKeepsTheOldHistory(first: Snapshot, second: Snapshot, h: nat)
    requires AllPositive(first.points) && |second.points| <= |first.points| <= h && |first.points| <= MAX_IDS
    ensures var e := Imported(FRESH, first, h).engine;
      Imported(e, second, h) == Seed(e.(losses := second.losses), true) && e.points == first.points
  {
    ImportIntoFresh(FRESH, first, h);
    var e, cs := Imported(FRESH, first, h).engine, Restoring(second.points);
    forall i | 0 <= i < |cs| ensures cs[i].id != "" && cs[i].id in e.processed {
      IdsAt(Restoring(first.points), i);
    }
    SeedingSkipsKnownRounds(e, cs, h);
  }
}
