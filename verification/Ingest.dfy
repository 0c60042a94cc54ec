/** Inserting new rounds into a table keyed by game id, with the hot cache in front of it. */
module Ingest {
  import opened HotCache
  import opened Sequences
  import opened Wrappers

  /** A fetched round; `crashedAt` is absent when its date cannot be parsed. `details` stands for the other columns. */
  datatype Round = Round(id: Id, multiplier: real, crashedAt: Option<int>, details: int)

  type Table = map<Id, Round>

  /** What the database will do: refuse the multi-row statement as a whole, or single rows. */
  datatype Faults = Faults(batch: bool, rows: set<Id>)

  datatype Store = Store(table: Table, cache: Cache)

  function Unknown(c: Cache, rounds: seq<Round>): seq<Round> {
    if rounds == [] then []
    else
      var front, r := Unknown(c, rounds[..|rounds| - 1]), rounds[|rounds| - 1];
      if r.id in c.entries then front else front + [r]
  }

  /** Rounds with a usable date. */
  function Prepared(rounds: seq<Round>): seq<Round> {
    if rounds == [] then []
    else
      var front, r := Prepared(rounds[..|rounds| - 1]), rounds[|rounds| - 1];
      if r.crashedAt.Some? then front + [r] else front
  }

  /** Insert what is absent; the first of two rounds with one id wins. */
  function InsertAbsent(table: Table, rounds: seq<Round>): Table {
    if rounds == [] then table
    else
      var t, r := InsertAbsent(table, rounds[..|rounds| - 1]), rounds[|rounds| - 1];
      if r.id in t then t else t[r.id := r]
  }

  /** The rounds whose ids were not in the table. */
  function NewOnes(table: Table, rounds: seq<Round>): seq<Round> {
    if rounds == [] then []
    else
      var front, r := NewOnes(table, rounds[..|rounds| - 1]), rounds[|rounds| - 1];
      if r.id in table then front else front + [r]
  }

  datatype Written = Written(table: Table, reported: seq<Round>)

  /** The fallback: one statement a row, a refused row is logged and skipped. */
  function RowByRow(table: Table, rounds: seq<Round>, refused: set<Id>): Written {
    if rounds == [] then Written(table, [])
    else
      var w, r := RowByRow(table, rounds[..|rounds| - 1], refused), rounds[|rounds| - 1];
      if r.id in refused || r.id in w.table then w else Written(w.table[r.id := r], w.reported + [r])
  }

  /** One multi-row statement, or the fallback when it is refused. */
  function Write(table: Table, rounds: seq<Round>, faults: Faults): Written {
    if faults.batch then RowByRow(table, rounds, faults.rows)
    else Written(InsertAbsent(table, rounds), NewOnes(table, rounds))
  }

  function Items(rounds: seq<Round>): (items: seq<Item>)
    ensures |items| == |rounds|
    ensures forall i :: 0 <= i < |rounds| ==> items[i].id == rounds[i].id
  {
    seq(|rounds|, i requires 0 <= i < |rounds| =>
      Item(rounds[i].id, Entry(rounds[i].multiplier, if rounds[i].crashedAt.Some? then rounds[i].crashedAt.value else 0)))
  }

  datatype Ingested = Ingested(store: Store, reported: seq<Round>)

  /** `insertNewRounds`. */
  function InsertNewRounds(s: Store, rounds: seq<Round>, faults: Faults, maxSize: nat): Ingested {
    var candidates := Unknown(s.cache, rounds);
    if candidates == [] then Ingested(s.(cache := AddedAll(s.cache, Items(rounds), maxSize)), [])
    else
      var prepared := Prepared(candidates);
      if prepared == [] then Ingested(s, [])
      else
        var w := Write(s.table, prepared, faults);
        Ingested(Store(w.table, AddedAll(s.cache, Items(prepared), maxSize)), w.reported)
  }

  /** The same without a cache. */
  function InsertUncached(table: Table, rounds: seq<Round>, faults: Faults): Written {
    Write(table, Prepared(rounds), faults)
  }

  class Ingestor {
    var table: Table
    const cache: RecentRoundCache

    ghost predicate Good()
      reads cache
    {
      cache.Good()
    }

    ghost function View(): Store
      reads this, cache
    {
      Store(table, cache.View())
    }

    constructor (maxSize: nat)
      ensures Good() && fresh(cache) && View() == Store(map[], Cache([], map[]))
    {
      table := map[];
      cache := new RecentRoundCache(maxSize);
    }

    method FilterUnknown(rounds: seq<Round>) returns (candidates: seq<Round>)
      ensures candidates == Unknown(cache.View(), rounds)
    {
      candidates := [];
      for i := 0 to |rounds|
        invariant candidates == Unknown(cache.View(), rounds[..i])
      {
        assert rounds[..i + 1][..i] == rounds[..i];
        if rounds[i].id !in cache.entries { candidates := candidates + [rounds[i]]; }
      }
      assert rounds[..|rounds|] == rounds;
    }

    method Prepare(rounds: seq<Round>) returns (prepared: seq<Round>)
      ensures prepared == Prepared(rounds)
    {
      prepared := [];
      for i := 0 to |rounds|
        invariant prepared == Prepared(rounds[..i])
      {
        assert rounds[..i + 1][..i] == rounds[..i];
        if rounds[i].crashedAt.Some? { prepared := prepared + [rounds[i]]; }
      }
      assert rounds[..|rounds|] == rounds;
    }

    /** The multi-row insert: `returned` are the ids the statement reports as inserted. */
    method InsertBatch(prepared: seq<Round>) returns (reported: seq<Round>)
      modifies `table
      ensures Written(table, reported) == Write(old(table), prepared, Faults(false, {}))
    {
      ghost var before := table;
      var returned: set<Id> := {};
      for i := 0 to |prepared|
        invariant table == InsertAbsent(before, prepared[..i]) && before.Keys <= table.Keys
        invariant forall id :: id in returned <==> id in table && id !in before
      {
        assert prepared[..i + 1][..i] == prepared[..i];
        var r := prepared[i];
        if r.id !in table {
          table := table[r.id := r];
          returned := returned + {r.id};
        }
      }
      assert prepared[..|prepared|] == prepared;
      reported := [];
      for i := 0 to |prepared|
        invariant reported == NewOnes(before, prepared[..i])
        modifies {}
      {
        assert prepared[..i + 1][..i] == prepared[..i];
        InsertedAreThere(before, prepared, i);
        if prepared[i].id in returned { reported := reported + [prepared[i]]; }
      }
      assert prepared[..|prepared|] == prepared;
    }

    method InsertRows(prepared: seq<Round>, refused: set<Id>) returns (reported: seq<Round>)
      modifies `table
      ensures Written(table, reported) == RowByRow(old(table), prepared, refused)
    {
      ghost var before := table;
      reported := [];
      for i := 0 to |prepared|
        invariant Written(table, reported) == RowByRow(before, prepared[..i], refused)
      {
        assert prepared[..i + 1][..i] == prepared[..i];
        var r := prepared[i];
        if r.id !in refused && r.id !in table {
          table := table[r.id := r];
          reported := reported + [r];
        }
      }
      assert prepared[..|prepared|] == prepared;
    }

    method Insert(rounds: seq<Round>, faults: Faults) returns (reported: seq<Round>)
      requires Good()
      modifies this, cache
      ensures Good()
      ensures Ingested(View(), reported) == InsertNewRounds(old(View()), rounds, faults, cache.maxSize)
    {
      if rounds == [] { return []; }
      var candidates := FilterUnknown(rounds);
      if candidates == [] {
        var _ := cache.AddMany(Items(rounds));
        return [];
      }
      var prepared := Prepare(candidates);
      if prepared == [] { return []; }
      if faults.batch {
        reported := InsertRows(prepared, faults.rows);
      } else {
        reported := InsertBatch(prepared);
      }
      var _ := cache.AddMany(Items(prepared));
    }
  }

  lemma {:induction false} InsertedAreThere(table: Table, rounds: seq<Round>, i: nat)
    requires i < |rounds|
    ensures rounds[i].id in InsertAbsent(table, rounds)
    decreases |rounds|
  {
    if i < |rounds| - 1 {
      InsertedAreThere(table, rounds[..|rounds| - 1], i);
    }
  }

  // ---------------------------------------------------------------- the cache is only a shortcut

  /** Every cached id is stored. */
  ghost predicate Covered(s: Store) {
    forall id :: id in s.cache.entries ==> id in s.table
  }

  /** What writing one more round, absent at the start, adds to the report. */
  function Reported(table: Table, r: Round, faults: Faults): seq<Round> {
    if faults.batch && (r.id in faults.rows || r.id in table) then [] else [r]
  }

  lemma {:induction false} WriteSplits(table: Table, a: seq<Round>, r: Round, faults: Faults)
    ensures var w, all := Write(table, a, faults), Write(table, a + [r], faults);
      && all.table == (if r.id in w.table || (faults.batch && r.id in faults.rows) then w.table else w.table[r.id := r])
      && (r.id in table && table.Keys <= w.table.Keys ==> all == w)
      && (r.id !in table ==> all.reported == w.reported + Reported(w.table, r, faults))
  {
    assert (a + [r])[..|a|] == a;
  }

  lemma {:induction false} WriteKeeps(table: Table, rounds: seq<Round>, faults: Faults)
    ensures table.Keys <= Write(table, rounds, faults).table.Keys
  {
    if rounds != [] {
      var front, r := rounds[..|rounds| - 1], rounds[|rounds| - 1];
      WriteKeeps(table, front, faults);
      assert rounds == front + [r];
      WriteSplits(table, front, r, faults);
    }
  }

  /** Leaving the cached rounds out of the batch changes neither the table nor the report. */
  lemma {:induction false} SkippingKnownRounds(s: Store, rounds: seq<Round>, faults: Faults)
    requires Covered(s)
    ensures Write(s.table, Prepared(Unknown(s.cache, rounds)), faults) == Write(s.table, Prepared(rounds), faults)
  {
    if rounds != [] {
      var front, r := rounds[..|rounds| - 1], rounds[|rounds| - 1];
      SkippingKnownRounds(s, front, faults);
      assert rounds == front + [r];
      WriteKeeps(s.table, Prepared(front), faults);
      WriteSplits(s.table, Prepared(front), r, faults);
      WriteSplits(s.table, Prepared(Unknown(s.cache, front)), r, faults);
    }
  }

  /** With every cached id stored, an insert behaves as if there were no cache, whatever the database refuses. */
  lemma {:induction false} CacheIsTransparent(s: Store, rounds: seq<Round>, faults: Faults, maxSize: nat)
    requires Covered(s)
    ensures var r, u := InsertNewRounds(s, rounds, faults, maxSize), InsertUncached(s.table, rounds, faults);
      r.store.table == u.table && r.reported == u.reported
  {
    SkippingKnownRounds(s, rounds, faults);
  }

  lemma {:induction false} AddedComeFrom(c: Cache, items: seq<Item>, maxSize: nat, id: Id)
    requires id in AddedAll(c, items, maxSize).entries
    ensures id in c.entries || exists i :: 0 <= i < |items| && items[i].id == id
  {
    if items != [] {
      var front := items[..|items| - 1];
      if id in AddedAll(c, front, maxSize).entries {
        AddedComeFrom(c, front, maxSize, id);
        assert forall i :: 0 <= i < |front| ==> front[i] == items[i];
      } else {
        assert items[|items| - 1].id == id;
      }
    }
  }

  lemma {:induction false} WrittenUnlessRefused(table: Table, rounds: seq<Round>, faults: Faults, i: nat)
    requires i < |rounds| && (faults.batch ==> rounds[i].id !in faults.rows)
    ensures rounds[i].id in Write(table, rounds, faults).table
    decreases |rounds|
  {
    var front, r := rounds[..|rounds| - 1], rounds[|rounds| - 1];
    assert rounds == front + [r];
    WriteSplits(table, front, r, faults);
    if i < |rounds| - 1 { WrittenUnlessRefused(table, front, faults, i); }
  }

  lemma {:induction false} RefusedIsNotWritten(table: Table, rounds: seq<Round>, faults: Faults, id: Id)
    requires faults.batch && id in faults.rows && id !in table
    ensures id !in Write(table, rounds, faults).table
  {
    if rounds != [] {
      var front, r := rounds[..|rounds| - 1], rounds[|rounds| - 1];
      assert rounds == front + [r];
      WriteSplits(table, front, r, faults);
      RefusedIsNotWritten(table, front, faults, id);
    }
  }

  /** The database refuses the round with this id for good: neither the statement nor the fallback stores it. */
  ghost predicate Refused(table: Table, faults: Faults, id: Id) {
    faults.batch && id in faults.rows && id !in table
  }

  lemma {:induction false} AllKnown(c: Cache, rounds: seq<Round>, i: nat)
    requires Unknown(c, rounds) == [] && i < |rounds|
    ensures rounds[i].id in c.entries
    decreases |rounds|
  {
    if i < |rounds| - 1 { AllKnown(c, rounds[..|rounds| - 1], i); }
  }

  /** Every id in the cache after a call was cached before or belongs to a round the call tried to write. */
  lemma {:induction false} CachedIdsComeFrom(s: Store, rounds: seq<Round>, faults: Faults, maxSize: nat, id: Id)
    requires id in InsertNewRounds(s, rounds, faults, maxSize).store.cache.entries && id !in s.cache.entries
    ensures var prepared := Prepared(Unknown(s.cache, rounds));
      && InsertNewRounds(s, rounds, faults, maxSize).store.table == Write(s.table, prepared, faults).table
      && exists i :: 0 <= i < |prepared| && prepared[i].id == id
  {
    var prepared := Prepared(Unknown(s.cache, rounds));
    if Unknown(s.cache, rounds) == [] {
      AddedComeFrom(s.cache, Items(rounds), maxSize, id);
      var i :| 0 <= i < |rounds| && Items(rounds)[i].id == id;
      AllKnown(s.cache, rounds, i);
    } else {
      AddedComeFrom(s.cache, Items(prepared), maxSize, id);
      var i :| 0 <= i < |prepared| && Items(prepared)[i].id == id;
    }
  }

  lemma {:induction false} TableGrows(s: Store, rounds: seq<Round>, faults: Faults, maxSize: nat)
    ensures s.table.Keys <= InsertNewRounds(s, rounds, faults, maxSize).store.table.Keys
  {
    WriteKeeps(s.table, Prepared(Unknown(s.cache, rounds)), faults);
  }

  lemma {:induction false} CoverageByCache(s: Store, rounds: seq<Round>, faults: Faults, maxSize: nat)
    requires Covered(s)
    ensures var cache := InsertNewRounds(s, rounds, faults, maxSize).store.cache;
      Covered(InsertNewRounds(s, rounds, faults, maxSize).store)
      <==> forall id :: id in cache.entries ==> !Refused(s.table, faults, id)
  {
    var after := InsertNewRounds(s, rounds, faults, maxSize).store;
    TableGrows(s, rounds, faults, maxSize);
    forall id | id in after.cache.entries ensures id in after.table <==> !Refused(s.table, faults, id) {
      if id !in s.cache.entries {
        var prepared := Prepared(Unknown(s.cache, rounds));
        CachedIdsComeFrom(s, rounds, faults, maxSize, id);
        var i :| 0 <= i < |prepared| && prepared[i].id == id;
        if Refused(s.table, faults, id) {
          RefusedIsNotWritten(s.table, prepared, faults, id);
        } else if id !in s.table {
          WrittenUnlessRefused(s.table, prepared, faults, i);
        } else {
          WriteKeeps(s.table, prepared, faults);
        }
      }
    }
  }

  /** The rounds that a call with these rounds tries to write. */
  function Attempted(s: Store, rounds: seq<Round>): seq<Round> {
    Prepared(Unknown(s.cache, rounds))
  }

  /** The attempted rounds that will still be cached after the call: the last insertions, up to the size of the cache. */
  function Retained(s: Store, rounds: seq<Round>, maxSize: nat): seq<Id> {
    Last(Inserted(s.cache.order, Items(Attempted(s, rounds)), maxSize), maxSize)
  }

  /** No round that the cache will retain is refused. This can be read off the state and the faults before the call. */
  ghost predicate RetainsNoneRefused(s: Store, rounds: seq<Round>, faults: Faults, maxSize: nat) {
    forall id :: id in Retained(s, rounds, maxSize) ==> !Refused(s.table, faults, id)
  }

  lemma {:induction false} PreparedSkipsKnown(c: Cache, rounds: seq<Round>, i: nat)
    requires i < |Prepared(Unknown(c, rounds))|
    ensures Prepared(Unknown(c, rounds))[i].id !in c.entries
    decreases |rounds|
  {
    var front, r := rounds[..|rounds| - 1], rounds[|rounds| - 1];
    if i < |Prepared(Unknown(c, front))| { PreparedSkipsKnown(c, front, i); }
  }

  lemma {:induction false} NothingNew(c: Cache, rounds: seq<Round>, maxSize: nat)
    requires Unknown(c, rounds) == []
    ensures AddedAll(c, Items(rounds), maxSize) == c
  {
    forall i | 0 <= i < |rounds| ensures Items(rounds)[i].id in c.entries { AllKnown(c, rounds, i); }
    NothingAdded(c, Items(rounds), maxSize);
  }

  lemma {:induction false} NothingAdded(c: Cache, items: seq<Item>, maxSize: nat)
    requires forall i :: 0 <= i < |items| ==> items[i].id in c.entries
    ensures AddedAll(c, items, maxSize) == c
  {
    if items != [] { NothingAdded(c, items[..|items| - 1], maxSize); }
  }

  /** The cache a call leaves behind, in terms of the cache before it and the attempted rounds. */
  lemma {:induction false} CacheAfter(s: Store, rounds: seq<Round>, faults: Faults, maxSize: nat)
    requires Valid(s.cache, maxSize) && 0 < maxSize
    ensures var cache := InsertNewRounds(s, rounds, faults, maxSize).store.cache;
      && cache == AddedAll(s.cache, Items(Attempted(s, rounds)), maxSize) && Valid(cache, maxSize)
  {
    if Unknown(s.cache, rounds) == [] { NothingNew(s.cache, rounds, maxSize); }
    AddedOrder(s.cache, Items(Attempted(s, rounds)), maxSize);
  }

  lemma {:induction false} RetainedAreCached(s: Store, rounds: seq<Round>, faults: Faults, maxSize: nat, id: Id)
    requires Valid(s.cache, maxSize) && 0 < maxSize
    ensures var cache := InsertNewRounds(s, rounds, faults, maxSize).store.cache;
      && (id in Retained(s, rounds, maxSize) ==> id in cache.entries)
      && (id in cache.entries ==> id in s.cache.entries || id in Retained(s, rounds, maxSize))
  {
    var items := Items(Attempted(s, rounds));
    CacheAfter(s, rounds, faults, maxSize);
    AddedOrder(s.cache, items, maxSize);
    InLastOfMore(s.cache.order, Inserted(s.cache.order, items, maxSize), maxSize, id);
  }

  /** After a call every cached id is stored again, exactly when no round that the cache retains was refused. */
  lemma {:induction false} CoverageIsKeptIff(s: Store, rounds: seq<Round>, faults: Faults, maxSize: nat)
    requires Covered(s) && Valid(s.cache, maxSize) && 0 < maxSize
    ensures Covered(InsertNewRounds(s, rounds, faults, maxSize).store) <==> RetainsNoneRefused(s, rounds, faults, maxSize)
  {
    CoverageByCache(s, rounds, faults, maxSize);
    forall id { RetainedAreCached(s, rounds, faults, maxSize, id); }
  }

  /** A batch that fits in the cache: coverage is kept exactly when none of its rounds is refused. */
  lemma {:induction false} SmallBatchKeepsCoverageIff(s: Store, rounds: seq<Round>, faults: Faults, maxSize: nat)
    requires Covered(s) && Valid(s.cache, maxSize) && |Attempted(s, rounds)| <= maxSize && 0 < maxSize
    ensures Covered(InsertNewRounds(s, rounds, faults, maxSize).store)
      <==> forall i :: 0 <= i < |Attempted(s, rounds)| ==> !Refused(s.table, faults, Attempted(s, rounds)[i].id)
  {
    var attempted, items := Attempted(s, rounds), Items(Attempted(s, rounds));
    CoverageIsKeptIff(s, rounds, faults, maxSize);
    InsertedLength(s.cache.order, items, maxSize);
    forall i | 0 <= i < |attempted| ensures attempted[i].id in Retained(s, rounds, maxSize) {
      PreparedSkipsKnown(s.cache, rounds, i);
      MissingAreInserted(s.cache.order, items, maxSize, i);
    }
    forall id | id in Retained(s, rounds, maxSize) ensures exists i :: 0 <= i < |attempted| && attempted[i].id == id {
      InsertedComeFrom(s.cache.order, items, maxSize, id);
      var i :| 0 <= i < |items| && items[i].id == id;
      assert attempted[i].id == id;
    }
  }

  // ---------------------------------------------------------------- when the cache can be noticed

  /** The call leaves the table, and reports what is new, as without a cache. */
  predicate Unnoticed(s: Store, rounds: seq<Round>, faults: Faults, maxSize: nat) {
    var r, u := InsertNewRounds(s, rounds, faults, maxSize), InsertUncached(s.table, rounds, faults);
    r.store.table == u.table && r.reported == u.reported
  }

  ghost predicate Transparent(s: Store, maxSize: nat) {
    forall rounds, faults :: Unnoticed(s, rounds, faults, maxSize)
  }

  lemma {:induction false} UncoveredIsNoticed(s: Store, r: Round, maxSize: nat)
    requires r.id in s.cache.entries && r.id !in s.table && r.crashedAt.Some?
    ensures !Unnoticed(s, [r], Faults(false, {}), maxSize)
  {
    OneKnownRound(s, r, maxSize);
    OneWrite(s.table, r);
  }

  /** No call can tell the cache from its absence exactly when every cached id is stored. */
  lemma {:induction false} TransparentIffCovered(s: Store, maxSize: nat)
    ensures Transparent(s, maxSize) <==> Covered(s)
  {
    if Covered(s) {
      forall rounds, faults ensures Unnoticed(s, rounds, faults, maxSize) {
        CacheIsTransparent(s, rounds, faults, maxSize);
      }
    } else {
      var id :| id in s.cache.entries && id !in s.table;
      UncoveredIsNoticed(s, Round(id, 1.0, Some(0), 0), maxSize);
    }
  }

  /** A round that was refused once stays out of the table: its id is cached, so the next call leaves it out. */
  lemma {:induction false} RefusedRoundIsLost(s: Store, r: Round, maxSize: nat)
    requires r.crashedAt.Some? && r.id !in s.cache.entries && r.id !in s.table
    requires Valid(s.cache, maxSize) && 0 < maxSize
    ensures var first := InsertNewRounds(s, [r], Faults(true, {r.id}), maxSize).store;
      var second := InsertNewRounds(first, [r], Faults(false, {}), maxSize);
      && second.reported == [] && r.id !in second.store.table
      && InsertUncached(first.table, [r], Faults(false, {})) == Written(s.table[r.id := r], [r])
  {
    PutKeepsValid(s.cache, Items([r])[0], maxSize);
    OneRound(s, [r], Faults(true, {r.id}), maxSize);
    RefusedIsNotWritten(s.table, [r], Faults(true, {r.id}), r.id);
    OneWrite(s.table, r);
    var first := InsertNewRounds(s, [r], Faults(true, {r.id}), maxSize).store;
    assert r.id in first.cache.entries;
    OneKnownRound(first, r, maxSize);
  }

  lemma {:induction false} OneWrite(table: Table, r: Round)
    requires r.crashedAt.Some? && r.id !in table
    ensures Prepared([r]) == [r]
    ensures Write(table, [r], Faults(false, {})) == Written(table[r.id := r], [r])
    ensures Write(table, [r], Faults(true, {r.id})).table == table
  {
    assert [] + [r] == [r];
    WriteSplits(table, [], r, Faults(false, {}));
    WriteSplits(table, [], r, Faults(true, {r.id}));
  }

  lemma {:induction false} OneKnownRound(s: Store, r: Round, maxSize: nat)
    requires r.id in s.cache.entries
    ensures InsertNewRounds(s, [r], Faults(false, {}), maxSize).reported == []
    ensures InsertNewRounds(s, [r], Faults(false, {}), maxSize).store.table == s.table
  {
    assert [r][..0] == [];
    assert Unknown(s.cache, [r]) == Unknown(s.cache, []);
  }

  lemma {:induction false} OneCandidate(c: Cache, rounds: seq<Round>)
    requires |rounds| == 1 && rounds[0].id !in c.entries && rounds[0].crashedAt.Some?
    ensures Unknown(c, rounds) == rounds && Prepared(rounds) == rounds
  {
    assert rounds == [] + [rounds[0]];
    assert Unknown(c, rounds[..0]) == [];
  }

  lemma {:induction false} OneRound(s: Store, rounds: seq<Round>, faults: Faults, maxSize: nat)
    requires |rounds| == 1 && rounds[0].crashedAt.Some? && rounds[0].id !in s.cache.entries
    ensures var after := InsertNewRounds(s, rounds, faults, maxSize);
      && after.store.cache == Put(s.cache, Items(rounds)[0], maxSize)
      && Written(after.store.table, after.reported) == Write(s.table, rounds, faults)
  {
    OneCandidate(s.cache, rounds);
    OneItem(s.cache, Items(rounds), maxSize);
  }

  lemma {:induction false} OneItem(c: Cache, items: seq<Item>, maxSize: nat)
    requires |items| == 1 && items[0].id !in c.entries
    ensures AddedAll(c, items, maxSize) == Put(c, items[0], maxSize)
  {
    assert items[..0] == [];
    assert AddedAll(c, items[..0], maxSize) == c;
  }

  // ---------------------------------------------------------------- what the report says

  /** A round that occurs twice was stored before. */
  predicate RepeatsAreStored(table: Table, rounds: seq<Round>) {
    forall i, j :: 0 <= i < j < |rounds| && rounds[i].id == rounds[j].id ==> rounds[i].id in table
  }

  /** The report lists the rows that were added, each once, as they are stored. */
  predicate IsGrowth(table: Table, w: Written) {
    && |w.table| == |table| + |w.reported|
    && (forall i :: 0 <= i < |w.reported| ==>
          w.reported[i].id !in table && w.reported[i].id in w.table && w.table[w.reported[i].id] == w.reported[i])
  }

  /** Nothing that is stored is ever changed. */
  lemma {:induction false} StoredRowsStay(table: Table, rounds: seq<Round>, faults: Faults, id: Id)
    requires id in table
    ensures var w := Write(table, rounds, faults); id in w.table && w.table[id] == table[id]
  {
    if rounds != [] {
      var front, r := rounds[..|rounds| - 1], rounds[|rounds| - 1];
      assert rounds == front + [r];
      WriteSplits(table, front, r, faults);
      StoredRowsStay(table, front, faults, id);
    }
  }

  lemma {:induction false} WrittenIds(table: Table, rounds: seq<Round>, faults: Faults, id: Id)
    requires !faults.batch
    ensures id in Write(table, rounds, faults).table <==> id in table || exists i :: 0 <= i < |rounds| && rounds[i].id == id
  {
    if rounds != [] {
      var front, r := rounds[..|rounds| - 1], rounds[|rounds| - 1];
      assert rounds == front + [r];
      WriteSplits(table, front, r, faults);
      WrittenIds(table, front, faults, id);
      assert rounds[|rounds| - 1] == r;
    }
  }

  lemma {:induction false} FallbackReportsTheGrowth(table: Table, rounds: seq<Round>, faults: Faults)
    requires faults.batch
    ensures IsGrowth(table, Write(table, rounds, faults))
  {
    if rounds != [] {
      var front, r := rounds[..|rounds| - 1], rounds[|rounds| - 1];
      assert rounds == front + [r];
      FallbackReportsTheGrowth(table, front, faults);
      WriteSplits(table, front, r, faults);
      WriteKeeps(table, front, faults);
    }
  }

  /** One more round repeats none of the others, unless it is stored. */
  lemma {:induction false} RepeatsSplit(table: Table, front: seq<Round>, r: Round)
    ensures RepeatsAreStored(table, front + [r])
      <==> RepeatsAreStored(table, front) && (r.id in table || forall i :: 0 <= i < |front| ==> front[i].id != r.id)
  {
    var all := front + [r];
    assert all[|front|] == r && forall i :: 0 <= i < |front| ==> all[i] == front[i];
  }

  lemma {:induction false} StatementReportsTheGrowthIff(table: Table, rounds: seq<Round>, faults: Faults)
    requires !faults.batch
    ensures var w := Write(table, rounds, faults);
      && |w.table| <= |table| + |w.reported|
      && (|w.table| == |table| + |w.reported| <==> RepeatsAreStored(table, rounds))
      && (RepeatsAreStored(table, rounds) ==> IsGrowth(table, w))
  {
    if rounds != [] {
      var front, r := rounds[..|rounds| - 1], rounds[|rounds| - 1];
      assert rounds == front + [r];
      StatementReportsTheGrowthIff(table, front, faults);
      WriteSplits(table, front, r, faults);
      WriteKeeps(table, front, faults);
      WrittenIds(table, front, faults, r.id);
      RepeatsSplit(table, front, r);
    }
  }

  /** The report is exactly the growth of the table on the row-by-row path, and on the other path exactly when no round that is
      not stored yet occurs twice. */
  lemma {:induction false} ReportIsTheGrowthIff(table: Table, rounds: seq<Round>, faults: Faults)
    ensures IsGrowth(table, Write(table, rounds, faults)) <==> faults.batch || RepeatsAreStored(table, rounds)
    ensures |Write(table, rounds, faults).table| == |table| + |Write(table, rounds, faults).reported|
      <==> faults.batch || RepeatsAreStored(table, rounds)
  {
    if faults.batch {
      FallbackReportsTheGrowth(table, rounds, faults);
    } else {
      StatementReportsTheGrowthIff(table, rounds, faults);
    }
  }

  /** Two rounds with one new id: the row is stored once and reported twice. */
  lemma {:induction false} RepeatedIdIsReportedTwice(table: Table, r: Round)
    requires r.id !in table
    ensures Write(table, [r, r], Faults(false, {})) == Written(table[r.id := r], [r, r])
    ensures Write(table, [r, r], Faults(true, {})) == Written(table[r.id := r], [r])
  {
    assert [r, r] == ([] + [r]) + [r];
    WriteSplits(table, [] + [r], r, Faults(false, {}));
    WriteSplits(table, [], r, Faults(false, {}));
    WriteSplits(table, [] + [r], r, Faults(true, {}));
    WriteSplits(table, [], r, Faults(true, {}));
  }

  // ---------------------------------------------------------------- runs

  datatype Call = Call(rounds: seq<Round>, faults: Faults)

  /** No call of the run leaves a refused round in the cache. */
  ghost predicate Orderly(s: Store, calls: seq<Call>, maxSize: nat)
    decreases |calls|
  {
    calls == [] ||
    (RetainsNoneRefused(s, calls[0].rounds, calls[0].faults, maxSize)
     && Orderly(InsertNewRounds(s, calls[0].rounds, calls[0].faults, maxSize).store, calls[1..], maxSize))
  }

  /** Before, between and after the calls of the run the cache cannot be noticed. */
  ghost predicate TransparentThroughout(s: Store, calls: seq<Call>, maxSize: nat)
    decreases |calls|
  {
    && Transparent(s, maxSize)
    && (calls == [] ||
        TransparentThroughout(InsertNewRounds(s, calls[0].rounds, calls[0].faults, maxSize).store, calls[1..], maxSize))
  }

  /** Over any run, whatever is evicted: the cache is never noticeable exactly when no call retains a refused round. */
  lemma {:induction false} RunsAreTransparentIff(s: Store, calls: seq<Call>, maxSize: nat)
    requires Covered(s) && Valid(s.cache, maxSize) && 0 < maxSize
    ensures TransparentThroughout(s, calls, maxSize) <==> Orderly(s, calls, maxSize)
    decreases |calls|
  {
    TransparentIffCovered(s, maxSize);
    if calls != [] {
      var after := InsertNewRounds(s, calls[0].rounds, calls[0].faults, maxSize).store;
      CoverageIsKeptIff(s, calls[0].rounds, calls[0].faults, maxSize);
      CacheAfter(s, calls[0].rounds, calls[0].faults, maxSize);
      TransparentIffCovered(after, maxSize);
      if Covered(after) { RunsAreTransparentIff(after, calls[1..], maxSize); }
    }
  }

  function RunCached(s: Store, calls: seq<Call>, maxSize: nat): (Table, seq<seq<Round>>)
    decreases |calls|
  {
    if calls == [] then (s.table, [])
    else
      var r := InsertNewRounds(s, calls[0].rounds, calls[0].faults, maxSize);
      var rest := RunCached(r.store, calls[1..], maxSize);
      (rest.0, [r.reported] + rest.1)
  }

  function RunUncached(table: Table, calls: seq<Call>): (Table, seq<seq<Round>>)
    decreases |calls|
  {
    if calls == [] then (table, [])
    else
      var w := InsertUncached(table, calls[0].rounds, calls[0].faults);
      var rest := RunUncached(w.table, calls[1..]);
      (rest.0, [w.reported] + rest.1)
  }

  /** Any run of inserts that never caches a refused round leaves the same table and reports the same new rounds as without the cache. */
  lemma {:induction false} RunsAgree(s: Store, calls: seq<Call>, maxSize: nat)
    requires Covered(s) && Valid(s.cache, maxSize) && 0 < maxSize && Orderly(s, calls, maxSize)
    ensures RunCached(s, calls, maxSize) == RunUncached(s.table, calls)
    decreases |calls|
  {
    if calls != [] {
      CacheIsTransparent(s, calls[0].rounds, calls[0].faults, maxSize);
      CoverageIsKeptIff(s, calls[0].rounds, calls[0].faults, maxSize);
      CacheAfter(s, calls[0].rounds, calls[0].faults, maxSize);
      RunsAgree(InsertNewRounds(s, calls[0].rounds, calls[0].faults, maxSize).store, calls[1..], maxSize);
    }
  }

  // ---------------------------------------------------------------- what a call leaves in the table

  /** The `i`-th round is the first with that id whose date can be parsed. */
  ghost predicate FirstDated(rounds: seq<Round>, i: int, id: Id) {
    && 0 <= i < |rounds| && rounds[i].id == id && rounds[i].crashedAt.Some?
    && forall j :: 0 <= j < i ==> rounds[j].id != id || rounds[j].crashedAt.None?
  }

  function RowOf(table: Table, id: Id): Option<Round> {
    if id in table then Some(table[id]) else None
  }

  /** What the table holds for one id afterwards. */
  ghost predicate StoresFirst(before: Option<Round>, after: Option<Round>, rounds: seq<Round>, refused: bool, id: Id) {
    if before.Some? || refused then after == before
    else
      && (after.Some? ==> exists i :: FirstDated(rounds, i, id))
      && (forall i :: FirstDated(rounds, i, id) ==> after == Some(rounds[i]))
  }

  lemma {:induction false} FirstOfMore(rounds: seq<Round>, r: Round, i: nat, id: Id)
    ensures i < |rounds| ==> (FirstDated(rounds + [r], i, id) <==> FirstDated(rounds, i, id))
    ensures i >= |rounds| && FirstDated(rounds + [r], i, id)
      ==> i == |rounds| && r.id == id && r.crashedAt.Some? && forall j :: !FirstDated(rounds, j, id)
  {
    if i < |rounds| {
      assert (rounds + [r])[i] == rounds[i] && forall j :: 0 <= j < i ==> (rounds + [r])[j] == rounds[j];
    } else if FirstDated(rounds + [r], i, id) {
      assert forall j :: 0 <= j < |rounds| ==> (rounds + [r])[j] == rounds[j];
    }
  }

  /** The `k`-th round is the first dated one when the rounds before it have none. */
  lemma {:induction false} FirstComesLast(rounds: seq<Round>, r: Round, id: Id)
    requires r.id == id && r.crashedAt.Some? && forall j :: !FirstDated(rounds, j, id)
    ensures FirstDated(rounds + [r], |rounds|, id)
  {
    NoFirstMeansNone(rounds, id);
    assert forall j :: 0 <= j < |rounds| ==> (rounds + [r])[j] == rounds[j];
  }

  lemma {:induction false} NoFirstMeansNone(rounds: seq<Round>, id: Id)
    requires forall j :: !FirstDated(rounds, j, id)
    ensures forall j :: 0 <= j < |rounds| ==> rounds[j].id != id || rounds[j].crashedAt.None?
  {
    if rounds != [] {
      var front, r := rounds[..|rounds| - 1], rounds[|rounds| - 1];
      assert rounds == front + [r];
      forall j: nat ensures !FirstDated(front, j, id) {
        if j < |front| { FirstOfMore(front, r, j, id); assert !FirstDated(rounds, j, id); }
      }
      NoFirstMeansNone(front, id);
      if r.id == id && r.crashedAt.Some? { assert FirstDated(rounds, |front|, id); }
    }
  }

  lemma {:induction false} OneMoreRound(before: Option<Round>, after: Option<Round>, rounds: seq<Round>, r: Round, refused: bool,
                                        id: Id)
    requires StoresFirst(before, after, rounds, refused, id)
    ensures var stored := r.id == id && r.crashedAt.Some? && after.None? && !refused;
      StoresFirst(before, if stored then Some(r) else after, rounds + [r], refused, id)
  {
    var more := rounds + [r];
    forall i: nat | FirstDated(more, i, id) ensures i < |rounds| ==> FirstDated(rounds, i, id) { FirstOfMore(rounds, r, i, id); }
    if !(before.Some? || refused) {
      if after.Some? {
        var i :| FirstDated(rounds, i, id);
        FirstOfMore(rounds, r, i, id);
        FirstOfMore(rounds, r, |rounds|, id);
      } else if r.id == id && r.crashedAt.Some? {
        FirstComesLast(rounds, r, id);
      } else {
        FirstOfMore(rounds, r, |rounds|, id);
      }
    }
  }

  lemma {:induction false} DatedRoundsAreStored(table: Table, rounds: seq<Round>, faults: Faults, id: Id)
    ensures StoresFirst(RowOf(table, id), RowOf(Write(table, Prepared(rounds), faults).table, id), rounds,
                        faults.batch && id in faults.rows, id)
  {
    if rounds != [] {
      var front, r := rounds[..|rounds| - 1], rounds[|rounds| - 1];
      assert rounds == front + [r];
      var w := Write(table, Prepared(front), faults).table;
      DatedRoundsAreStored(table, front, faults, id);
      OneMoreRound(RowOf(table, id), RowOf(w, id), front, r, faults.batch && id in faults.rows, id);
      if r.crashedAt.Some? { WriteSplits(table, Prepared(front), r, faults); }
    }
  }

  /** Behind a cache that is covered, a call stores of every id that is new the first round with a date that can be parsed,
      unless the row is refused, and changes no other row. */
  lemma {:induction false} CallsStoreTheFirstDated(s: Store, rounds: seq<Round>, faults: Faults, maxSize: nat, id: Id)
    requires Covered(s)
    ensures StoresFirst(RowOf(s.table, id), RowOf(InsertNewRounds(s, rounds, faults, maxSize).store.table, id), rounds,
                        faults.batch && id in faults.rows, id)
  {
    CacheIsTransparent(s, rounds, faults, maxSize);
    DatedRoundsAreStored(s.table, rounds, faults, id);
  }
}
