/** The real-time event validator: shape checks, de-duplication over a bounded memory, and a count of missed rounds. */
module RoundValidator {
  import opened Decimals
  import opened Sequences
  import opened Wrappers

  datatype Phase = Prepare | Begin | Progress | End

  datatype Event = Event(phase: Phase, gameId: string, multiplier: Option<real>, crashedAt: Option<int>,
                         receivedAt: int, backfill: bool)

  datatype Key = Key(phase: Phase, gameId: string)

  datatype Verdict = Accepted(missed: nat) | Duplicate | Stale | Invalid

  /** `seen` is the key set in insertion order; the counters are those of the metrics object. */
  datatype State = State(seen: seq<Key>, lastEndId: Option<int>, accepted: nat, duplicates: nat, stale: nat,
                         invalid: nat, missed: nat)

  const STALE_MS := 90_000
  const SEEN_LIMIT := 20_000
  const SEEN_DROP := 5_000

  const EMPTY := State([], None, 0, 0, 0, 0, 0)

  predicate BadMultiplier(e: Event) {
    e.multiplier.None? || e.multiplier.value < 1.0 || e.multiplier.value > 1_000_000.0
  }

  predicate TooOld(e: Event) {
    var crashedAt := if e.crashedAt.Some? then e.crashedAt.value else e.receivedAt;
    !e.backfill && e.receivedAt - crashedAt > STALE_MS
  }

  function KeyOf(e: Event): Key { Key(e.phase, e.gameId) }

  /** How many rounds lie between the newest end seen and this one. */
  function Missed(last: Option<int>, id: nat): nat {
    if last.Some? && id > last.value + 1 then id - last.value - 1 else 0
  }

  predicate Advances(last: Option<int>, id: nat) {
    last.None? || id > last.value
  }

  function Remembered(seen: seq<Key>, k: Key): seq<Key> {
    var longer := seen + [k];
    if |longer| > SEEN_LIMIT then longer[SEEN_DROP..] else longer
  }

  function Judge(s: State, e: Event): Verdict {
    if !Numeric(e.gameId) then Invalid
    else if e.phase == End && BadMultiplier(e) then Invalid
    else if e.phase == End && TooOld(e) then Stale
    else if KeyOf(e) in s.seen then Duplicate
    else Accepted(if e.phase == End then Missed(s.lastEndId, ToNumber(e.gameId)) else 0)
  }

  function Next(s: State, e: Event): State {
    match Judge(s, e)
    case Invalid => s.(invalid := s.invalid + 1)
    case Stale => s.(stale := s.stale + 1)
    case Duplicate => s.(duplicates := s.duplicates + 1)
    case Accepted(missed) =>
      s.(seen := Remembered(s.seen, KeyOf(e)),
         lastEndId := if e.phase == End && Advances(s.lastEndId, ToNumber(e.gameId))
                      then Some(ToNumber(e.gameId)) else s.lastEndId,
         accepted := s.accepted + 1,
         missed := s.missed + missed)
  }

  /** The largest of some numbers. */
  function MaxId(ids: seq<int>): int
    requires ids != []
  {
    if |ids| == 1 then ids[0]
    else
      var m := MaxId(ids[..|ids| - 1]);
      if ids[|ids| - 1] > m then ids[|ids| - 1] else m
  }

  /** Marking the ends of known rounds as seen; a key that is there keeps its place, and nothing is forgotten. */
  function Marked(seen: seq<Key>, ids: seq<string>): seq<Key> {
    if ids == [] then seen
    else
      var front, id := Marked(seen, ids[..|ids| - 1]), ids[|ids| - 1];
      if Numeric(id) && Key(End, id) !in front then front + [Key(End, id)] else front
  }

  /** What the runtime makes of a text as a number, if that is finite: of "" it makes 0 and of "-1" it makes -1. */
  type Conversion = string -> Option<int>

  function NumberOf(id: string, number: Conversion): seq<int> {
    match number(id)
    case Some(n) => [n]
    case None => []
  }

  function Numbers(ids: seq<string>, number: Conversion): seq<int> {
    if ids == [] then [] else Numbers(ids[..|ids| - 1], number) + NumberOf(ids[|ids| - 1], number)
  }

  /** `hydrate`: the newest end becomes the largest number among the known ids, whatever it was before. */
  function Hydrated(s: State, ids: seq<string>, number: Conversion): State {
    var numbers := Numbers(ids, number);
    s.(seen := Marked(s.seen, ids), lastEndId := if numbers == [] then s.lastEndId else Some(MaxId(numbers)))
  }

  class Validator {
    var seen: seq<Key>
    var lastEndId: Option<int>
    var accepted: nat
    var duplicates: nat
    var stale: nat
    var invalid: nat
    var missed: nat

    ghost function View(): State
      reads this
    {
      State(seen, lastEndId, accepted, duplicates, stale, invalid, missed)
    }

    constructor ()
      ensures View() == EMPTY
    {
      seen, lastEndId, accepted, duplicates, stale, invalid, missed := [], None, 0, 0, 0, 0, 0;
    }

    method Hydrate(gameIds: seq<string>, number: Conversion)
      modifies this
      ensures View() == Hydrated(old(View()), gameIds, number)
    {
      var numbers: seq<int> := [];
      for i := 0 to |gameIds|
        invariant View() == old(View()).(seen := Marked(old(seen), gameIds[..i]))
        invariant numbers == Numbers(gameIds[..i], number)
      {
        assert gameIds[..i + 1][..i] == gameIds[..i];
        var id := gameIds[i];
        if Numeric(id) && Key(End, id) !in seen { seen := seen + [Key(End, id)]; }
        numbers := numbers + NumberOf(id, number);
      }
      assert gameIds[..|gameIds|] == gameIds;
      if |numbers| > 0 { lastEndId := Some(MaxId(numbers)); }
    }

    method Validate(e: Event) returns (v: Verdict)
      modifies this
      ensures v == Judge(old(View()), e) && View() == Next(old(View()), e)
    {
      if !Numeric(e.gameId) {
        invalid := invalid + 1;
        return Invalid;
      }
      if e.phase == End {
        if BadMultiplier(e) {
          invalid := invalid + 1;
          return Invalid;
        }
        if TooOld(e) {
          stale := stale + 1;
          return Stale;
        }
      }
      var key := KeyOf(e);
      if key in seen {
        duplicates := duplicates + 1;
        return Duplicate;
      }
      var gap := 0;
      if e.phase == End {
        var id := ToNumber(e.gameId);
        if lastEndId.Some? && id > lastEndId.value + 1 {
          gap := id - lastEndId.value - 1;
          missed := missed + gap;
        }
        if lastEndId.None? || id > lastEndId.value { lastEndId := Some(id); }
      }
      seen := seen + [key];
      if |seen| > SEEN_LIMIT {
        seen := seen[SEEN_DROP..];
      }
      accepted := accepted + 1;
      return Accepted(gap);
    }
  }

  // ---------------------------------------------------------------- runs

  function Run(s: State, es: seq<Event>): State
    decreases |es|
  {
    if es == [] then s else Run(Next(s, es[0]), es[1..])
  }

  function AcceptedKey(s: State, e: Event): seq<Key> {
    if Judge(s, e).Accepted? then [KeyOf(e)] else []
  }

  /** The keys of the accepted events, in order. */
  function Acceptances(s: State, es: seq<Event>): seq<Key>
    decreases |es|
  {
    if es == [] then [] else AcceptedKey(s, es[0]) + Acceptances(Next(s, es[0]), es[1..])
  }

  function EndId(s: State, e: Event): seq<nat> {
    if Judge(s, e).Accepted? && e.phase == End then [ToNumber(e.gameId)] else []
  }

  /** The round ids of the accepted end events, in order. */
  function EndIds(s: State, es: seq<Event>): seq<nat>
    decreases |es|
  {
    if es == [] then [] else EndId(s, es[0]) + EndIds(Next(s, es[0]), es[1..])
  }

  /** How many ids of the list exceed everything before them. */
  function Records(ids: seq<nat>): nat {
    if ids == [] then 0
    else
      var front := ids[..|ids| - 1];
      Records(front) + (if front == [] || ids[|ids| - 1] > MaxId(front) then 1 else 0)
  }

  /**
   * Conservation: the newest end is the maximum of the accepted ids, and every round between the first accepted end
   * and the newest was either the step to a new maximum or counted as missed.
   */
  predicate Conserved(s: State, ids: seq<nat>) {
    if ids == [] then s.lastEndId == None && s.missed == 0
    else
      && s.lastEndId == Some(MaxId(ids))
      && s.missed + (Records(ids) - 1) == MaxId(ids) - ids[0]
  }

  lemma {:induction false} StepConserves(s: State, ids: seq<nat>, e: Event)
    requires Conserved(s, ids)
    ensures Conserved(Next(s, e), ids + EndId(s, e))
  {
    var more := ids + EndId(s, e);
    if EndId(s, e) == [] {
      assert more == ids;
    } else {
      assert more[..|ids|] == ids;
      if ids != [] { assert more[0] == ids[0]; }
    }
  }

  lemma {:induction false} RunConserves(s: State, ids: seq<nat>, es: seq<Event>)
    requires Conserved(s, ids)
    ensures Conserved(Run(s, es), ids + EndIds(s, es))
    decreases |es|
  {
    if es == [] {
      assert ids + [] == ids;
    } else {
      StepConserves(s, ids, es[0]);
      RunConserves(Next(s, es[0]), ids + EndId(s, es[0]), es[1..]);
      Regroup(ids, EndId(s, es[0]), EndIds(Next(s, es[0]), es[1..]));
    }
  }

  /** Without hydration the law holds over every run. */
  lemma {:induction false} MissedRoundsTelescope(es: seq<Event>)
    ensures Conserved(Run(EMPTY, es), EndIds(EMPTY, es))
  {
    RunConserves(EMPTY, [], es);
    assert [] + EndIds(EMPTY, es) == EndIds(EMPTY, es);
  }

  lemma {:induction false} MaxIdIsMaximum(ids: seq<int>)
    requires ids != []
    ensures MaxId(ids) in ids && forall i :: 0 <= i < |ids| ==> ids[i] <= MaxId(ids)
  {
    if |ids| > 1 {
      MaxIdIsMaximum(ids[..|ids| - 1]);
      assert forall i :: 0 <= i < |ids| - 1 ==> ids[i] == ids[..|ids| - 1][i];
    }
  }

  // ---------------------------------------------------------------- the bounded memory

  const KEPT := SEEN_LIMIT + 1 - SEEN_DROP

  /** The memory is a suffix of all acceptances, never shorter than the guaranteed one nor longer than the limit. */
  ghost predicate Recalls(seen: seq<Key>, all: seq<Key>) {
    && |seen| <= |all| && |seen| <= SEEN_LIMIT
    && (|seen| == |all| || |seen| >= KEPT)
    && seen == all[|all| - |seen|..]
  }

  ghost predicate Remembers(seen: seq<Key>, all: seq<Key>) {
    && Recalls(seen, all)
    && forall i, j :: 0 <= i < j < |all| && j - i <= KEPT ==> all[i] != all[j]
  }

  lemma {:induction false} RememberingRecalls(seen: seq<Key>, all: seq<Key>, k: Key)
    requires Recalls(seen, all)
    ensures Recalls(Remembered(seen, k), all + [k])
  {
    assert seen + [k] == (all + [k])[|all| - |seen|..];
  }

  lemma {:induction false} StepRemembers(s: State, all: seq<Key>, e: Event)
    requires Remembers(s.seen, all)
    ensures Remembers(Next(s, e).seen, all + AcceptedKey(s, e))
  {
    if AcceptedKey(s, e) == [] {
      assert all + AcceptedKey(s, e) == all;
    } else {
      RememberingRecalls(s.seen, all, KeyOf(e));
    }
  }

  lemma {:induction false} RunRemembers(s: State, all: seq<Key>, es: seq<Event>)
    requires Remembers(s.seen, all)
    ensures Remembers(Run(s, es).seen, all + Acceptances(s, es))
    decreases |es|
  {
    if es == [] {
      assert all + [] == all;
    } else {
      StepRemembers(s, all, es[0]);
      var next := Next(s, es[0]);
      RunRemembers(next, all + AcceptedKey(s, es[0]), es[1..]);
      Regroup(all, AcceptedKey(s, es[0]), Acceptances(next, es[1..]));
    }
  }

  /** Over every run the memory stays bounded and no event is accepted twice within 15001 acceptances. */
  lemma {:induction false} NoRepeatWithinMemory(es: seq<Event>)
    ensures Remembers(Run(EMPTY, es).seen, Acceptances(EMPTY, es))
  {
    RunRemembers(EMPTY, [], es);
    assert [] + Acceptances(EMPTY, es) == Acceptances(EMPTY, es);
  }

  /** The event has the shape of its phase. */
  predicate WellShaped(e: Event) {
    && e.gameId != "" && (forall c :: c in e.gameId ==> c in "0123456789")
    && (e.phase == End ==> e.multiplier.Some? && 1.0 <= e.multiplier.value <= 1_000_000.0)
  }

  /** An end is no older than ninety seconds; the others, backfilled ends and those without a crash time always are in time. */
  predicate InTime(e: Event) {
    e.phase == End && !e.backfill && e.crashedAt.Some? ==> e.receivedAt <= e.crashedAt.value + 90_000
  }

  /** How many rounds lie between the largest of the ids and this one. */
  function Skipped(ids: seq<nat>, id: nat): nat {
    if ids == [] || id <= MaxId(ids) then 0 else id - MaxId(ids) - 1
  }

  lemma {:induction false} NumericMeansDigits(id: string)
    ensures Numeric(id) <==> id != "" && forall c :: c in id ==> c in "0123456789"
  {
    TenDigits();
    if id != "" && forall c :: c in id ==> c in "0123456789" {
      forall i | 0 <= i < |id| ensures IsDigit(id[i]) { assert id[i] in id; }
    }
  }

  lemma {:induction false} JudgedByShape(s: State, e: Event)
    ensures Judge(s, e) == Invalid <==> !WellShaped(e)
    ensures Judge(s, e) == Stale <==> WellShaped(e) && !InTime(e)
    ensures Judge(s, e) == Duplicate <==> WellShaped(e) && InTime(e) && KeyOf(e) in s.seen
  {
    NumericMeansDigits(e.gameId);
  }

  lemma {:induction false} RecalledKeys(seen: seq<Key>, all: seq<Key>, k: Key)
    requires Recalls(seen, all)
    ensures k in seen ==> k in all
    ensures k in Last(all, KEPT) ==> k in seen
  {
    if k in Last(all, KEPT) { assert Last(all, KEPT) == Last(seen, KEPT); }
  }

  lemma {:induction false} SkippedRounds(s: State, ids: seq<nat>, e: Event)
    requires Conserved(s, ids) && Judge(s, e).Accepted?
    ensures Judge(s, e).missed == if e.phase == End then Skipped(ids, ToNumber(e.gameId)) else 0
  {}

  /**
   * After every run: an event is invalid exactly when it lacks the shape of its phase, stale exactly when it has it and is an
   * end that comes too late. The others are duplicates if one of the last 15001 accepted events had their key, and accepted
   * if none of the accepted ones had it; an accepted end counts the rounds between it and the newest one.
   */
  lemma {:induction false} EventsAreJudged(es: seq<Event>, e: Event)
    ensures var v, all := Judge(Run(EMPTY, es), e), Acceptances(EMPTY, es);
      && (v == Invalid <==> !WellShaped(e))
      && (v == Stale <==> WellShaped(e) && !InTime(e))
      && (v == Duplicate ==> KeyOf(e) in all)
      && (WellShaped(e) && InTime(e) && KeyOf(e) in Last(all, KEPT) ==> v == Duplicate)
      && (v.Accepted? ==> v.missed == if e.phase == End then Skipped(EndIds(EMPTY, es), ToNumber(e.gameId)) else 0)
  {
    var s := Run(EMPTY, es);
    JudgedByShape(s, e);
    NoRepeatWithinMemory(es);
    RecalledKeys(s.seen, Acceptances(EMPTY, es), KeyOf(e));
    MissedRoundsTelescope(es);
    if Judge(s, e).Accepted? { SkippedRounds(s, EndIds(EMPTY, es), e); }
  }

  /** Every event is counted exactly once. */
  lemma {:induction false} EveryEventIsCounted(s: State, es: seq<Event>)
    ensures var t := Run(s, es);
      t.accepted + t.duplicates + t.stale + t.invalid == s.accepted + s.duplicates + s.stale + s.invalid + |es|
    decreases |es|
  {
    if es != [] { EveryEventIsCounted(Next(s, es[0]), es[1..]); }
  }

  // ---------------------------------------------------------------- hydration

  lemma {:induction false} NumbersAreConverted(ids: seq<string>, number: Conversion, n: int)
    ensures n in Numbers(ids, number) <==> exists i :: 0 <= i < |ids| && number(ids[i]) == Some(n)
  {
    if ids != [] {
      var front, last := ids[..|ids| - 1], ids[|ids| - 1];
      NumbersAreConverted(front, number, n);
      if n in Numbers(front, number) {
        var i :| 0 <= i < |front| && number(front[i]) == Some(n);
        assert ids[i] == front[i];
      } else if n in NumberOf(last, number) {
        assert number(ids[|ids| - 1]) == Some(n);
      } else {
        assert forall i :: 0 <= i < |front| ==> ids[i] == front[i];
      }
    }
  }

  /** Some known id is a number, and all that are are older than `last`. */
  predicate OnlyOlder(ids: seq<string>, number: Conversion, last: int) {
    && (exists i :: 0 <= i < |ids| && number(ids[i]).Some?)
    && (forall i :: 0 <= i < |ids| && number(ids[i]).Some? ==> number(ids[i]).value < last)
  }

  /** Whatever the texts convert to: hydrating lowers the newest end exactly when some known id is a number and all that
      are are older. */
  lemma {:induction false} HydrateLowersIff(s: State, ids: seq<string>, number: Conversion)
    requires s.lastEndId.Some?
    ensures Hydrated(s, ids, number).lastEndId.Some?
    ensures Hydrated(s, ids, number).lastEndId.value < s.lastEndId.value <==> OnlyOlder(ids, number, s.lastEndId.value)
  {
    var numbers := Numbers(ids, number);
    forall i | 0 <= i < |ids| && number(ids[i]).Some? ensures number(ids[i]).value in numbers {
      NumbersAreConverted(ids, number, number(ids[i]).value);
    }
    if numbers != [] {
      MaxIdIsMaximum(numbers);
      NumbersAreConverted(ids, number, MaxId(numbers));
    }
  }

  lemma {:induction false} KnownRoundsAreMarked(seen: seq<Key>, ids: seq<string>, id: string)
    requires id in ids && Numeric(id)
    ensures Key(End, id) in Marked(seen, ids)
  {
    var front, last := ids[..|ids| - 1], ids[|ids| - 1];
    assert ids == front + [last];
    if id != last { KnownRoundsAreMarked(seen, front, id); }
  }

  /** Hydrating adds the ends of the numeric known ids and nothing else, each once, behind what is there. */
  lemma {:induction false} HydrationMarksTheEnds(s: State, ids: seq<string>, number: Conversion)
    ensures var after := Hydrated(s, ids, number).seen;
      && s.seen <= after
      && (forall k :: k in after <==> k in s.seen || (k.phase == End && k.gameId in ids && Numeric(k.gameId)))
      && (Distinct(s.seen) ==> Distinct(after))
  {
    if ids != [] {
      var front, last := ids[..|ids| - 1], ids[|ids| - 1];
      assert ids == front + [last];
      HydrationMarksTheEnds(s, front, number);
    }
  }

  /** The end of a hydrated round is not accepted again. */
  lemma {:induction false} HydratedRoundsAreKnown(s: State, ids: seq<string>, number: Conversion, e: Event)
    requires e.phase == End && e.gameId in ids
    ensures !Judge(Hydrated(s, ids, number), e).Accepted?
  {
    if Numeric(e.gameId) { KnownRoundsAreMarked(s.seen, ids, e.gameId); }
  }

  /** How many accepted ends moved the newest one forward. */
  function Advanced(s: State, es: seq<Event>): nat
    decreases |es|
  {
    if es == [] then 0
    else (if Next(s, es[0]).lastEndId != s.lastEndId then 1 else 0) + Advanced(Next(s, es[0]), es[1..])
  }

  /** From any state with a newest end, hydrated or not, every id passed on the way to the newest one is an advance or counted missed. */
  lemma {:induction false} MissedRoundsTelescopeFrom(s: State, es: seq<Event>)
    requires s.lastEndId.Some?
    ensures var t := Run(s, es);
      && t.lastEndId.Some? && t.lastEndId.value >= s.lastEndId.value
      && (t.missed - s.missed) + Advanced(s, es) == t.lastEndId.value - s.lastEndId.value
    decreases |es|
  {
    if es != [] { MissedRoundsTelescopeFrom(Next(s, es[0]), es[1..]); }
  }
}
