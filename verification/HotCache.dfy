/** The bounded cache of recent rounds, least recently used out first. */
module HotCache {
  import opened Sequences

  datatype Id = Id(text: string)

  datatype Entry = Entry(multiplier: real, crashedAt: int)

  datatype Item = Item(id: Id, entry: Entry)

  /** A map that remembers insertion order, oldest first. */
  datatype Cache = Cache(order: seq<Id>, entries: map<Id, Entry>)

  const MIN_SIZE := 16

  ghost predicate Valid(c: Cache, maxSize: nat) {
    && Distinct(c.order) && |c.order| <= maxSize
    && forall id :: id in c.order <==> id in c.entries
  }

  /** Moving an id to the most recent end. */
  function Touched(order: seq<Id>, id: Id): seq<Id> {
    Without(order, id) + [id]
  }

  /** Insert at the recent end and drop the oldest entry when that is one too many. */
  function Put(c: Cache, item: Item, maxSize: nat): Cache {
    var order := Touched(c.order, item.id);
    var entries := c.entries[item.id := item.entry];
    if |order| > maxSize then Cache(order[1..], entries - {order[0]}) else Cache(order, entries)
  }

  function PutMissing(c: Cache, item: Item, maxSize: nat): Cache {
    if item.id in c.entries then c else Put(c, item, maxSize)
  }

  function AddedAll(c: Cache, items: seq<Item>, maxSize: nat): Cache {
    if items == [] then c
    else PutMissing(AddedAll(c, items[..|items| - 1], maxSize), items[|items| - 1], maxSize)
  }

  ghost predicate Matches(c: Cache) {
    Distinct(c.order) && forall id :: id in c.order <==> id in c.entries
  }

  /** How many items were not cached when their turn came. */
  function AddedCount(c: Cache, items: seq<Item>, maxSize: nat): nat {
    if items == [] then 0
    else
      var front, last := items[..|items| - 1], items[|items| - 1];
      AddedCount(c, front, maxSize) + (if last.id in AddedAll(c, front, maxSize).entries then 0 else 1)
  }

  lemma {:induction false} TouchMatches(c: Cache, item: Item)
    requires Matches(c)
    ensures Matches(Cache(Touched(c.order, item.id), c.entries[item.id := item.entry]))
    ensures |Touched(c.order, item.id)| <= |c.order| + 1
  {
    WithoutIsDistinct(c.order, item.id);
    var order := Touched(c.order, item.id);
    forall x ensures x in order <==> x in c.order || x == item.id {
      WithoutMembers(c.order, item.id, x);
    }
  }

  lemma {:induction false} DropOldestMatches(c: Cache)
    requires Matches(c) && c.order != []
    ensures Matches(Cache(c.order[1..], c.entries - {c.order[0]}))
  {
    assert c.order == [c.order[0]] + c.order[1..];
  }

  lemma {:induction false} PutKeepsValid(c: Cache, item: Item, maxSize: nat)
    requires Valid(c, maxSize) && 0 < maxSize
    ensures Valid(Put(c, item, maxSize), maxSize) && item.id in Put(c, item, maxSize).order
  {
    TouchMatches(c, item);
    var touched := Cache(Touched(c.order, item.id), c.entries[item.id := item.entry]);
    var n := |touched.order|;
    assert touched.order[n - 1] == item.id;
    if n > maxSize {
      DropOldestMatches(touched);
      assert touched.order[1..][n - 2] == item.id;
    }
  }

  class RecentRoundCache {
    const maxSize: nat
    var order: seq<Id>
    var entries: map<Id, Entry>

    ghost function View(): Cache
      reads this
    {
      Cache(order, entries)
    }

    ghost predicate Good()
      reads this
    {
      0 < maxSize && Valid(View(), maxSize)
    }

    constructor (maxSize: nat)
      ensures Good() && View() == Cache([], map[])
      ensures this.maxSize == (if maxSize > MIN_SIZE then maxSize else MIN_SIZE)
    {
      this.maxSize := if maxSize > MIN_SIZE then maxSize else MIN_SIZE;
      order, entries := [], map[];
    }

    /** A hit moves the entry to the recent end. */
    method Get(id: Id) returns (found: bool, entry: Entry)
      requires Good()
      modifies this
      ensures Good() && found == (id in old(entries))
      ensures found ==> entry == old(entries)[id] && View() == Cache(Touched(old(order), id), old(entries))
      ensures !found ==> View() == old(View())
    {
      if id !in entries { return false, Entry(0.0, 0); }
      TouchMatches(View(), Item(id, entries[id]));
      WithoutIsDistinct(order, id);
      entry := entries[id];
      order := Without(order, id) + [id];
      return true, entry;
    }

    method Set(item: Item)
      requires Good()
      modifies this
      ensures Good() && View() == Put(old(View()), item, maxSize)
    {
      PutKeepsValid(View(), item, maxSize);
      if item.id !in entries { WithoutAbsent(order, item.id); }
      if item.id in entries { order := Without(order, item.id); }
      order := order + [item.id];
      entries := entries[item.id := item.entry];
      if |order| > maxSize {
        entries := entries - {order[0]};
        order := order[1..];
      }
    }

    /** Items already cached are skipped, not touched. */
    method AddMany(items: seq<Item>) returns (added: nat)
      requires Good()
      modifies this
      ensures Good() && View() == AddedAll(old(View()), items, maxSize)
      ensures added == AddedCount(old(View()), items, maxSize)
    {
      added := 0;
      for i := 0 to |items|
        invariant Good() && View() == AddedAll(old(View()), items[..i], maxSize)
        invariant added == AddedCount(old(View()), items[..i], maxSize)
      {
        assert items[..i + 1][..i] == items[..i];
        if items[i].id !in entries {
          Set(items[i]);
          added := added + 1;
        }
      }
      assert items[..|items|] == items;
    }
  }

  // ---------------------------------------------------------------- what eviction keeps

  /** All ids in order of their last touch. */
  function ByRecency(history: seq<Id>): seq<Id> {
    if history == [] then [] else Touched(ByRecency(history[..|history| - 1]), history[|history| - 1])
  }

  function BoundedByRecency(history: seq<Id>, n: nat): seq<Id> {
    if history == [] then [] else Last(Touched(BoundedByRecency(history[..|history| - 1], n), history[|history| - 1]), n)
  }

  lemma {:induction false} RecencyIsDistinct(history: seq<Id>)
    ensures Distinct(ByRecency(history))
  {
    if history != [] {
      RecencyIsDistinct(history[..|history| - 1]);
      WithoutIsDistinct(ByRecency(history[..|history| - 1]), history[|history| - 1]);
    }
  }

  lemma {:induction false} TouchKept(gone: seq<Id>, kept: seq<Id>, id: Id)
    requires id !in gone && Distinct(kept)
    ensures Last(Touched(kept, id), |kept|) == Last(Touched(gone + kept, id), |kept|)
    ensures Touched(gone + kept, id) == gone + Touched(kept, id)
  {
    WithoutAppend(gone, kept, id);
    WithoutIsDistinct(kept, id);
    assert Touched(gone + kept, id) == gone + Touched(kept, id);
    LastOfLonger(gone, Touched(kept, id), |kept|);
  }

  lemma {:induction false} TouchGone(gone: seq<Id>, kept: seq<Id>, id: Id)
    requires id in gone && id !in kept && kept != []
    ensures Last(Touched(kept, id), |kept|) == Last(Touched(gone + kept, id), |kept|)
  {
    WithoutAppend(gone, kept, id);
    WithoutAbsent(kept, id);
    LastOfLonger(Without(gone, id), kept + [id], |kept|);
    assert Touched(gone + kept, id) == Without(gone, id) + (kept + [id]);
  }

  lemma {:induction false} DisjointHalves(gone: seq<Id>, kept: seq<Id>, id: Id)
    requires Distinct(gone + kept) && id in gone
    ensures id !in kept
  {
    var i :| 0 <= i < |gone| && gone[i] == id;
    assert (gone + kept)[i] == id;
    forall k | 0 <= k < |kept| ensures kept[k] != id {
      assert (gone + kept)[|gone| + k] == kept[k];
    }
  }

  lemma {:induction false} TouchThenCut(u: seq<Id>, id: Id, n: nat)
    requires Distinct(u) && 0 < n
    ensures Last(Touched(Last(u, n), id), n) == Last(Touched(u, id), n)
  {
    if |u| > n {
      var gone, kept := u[..|u| - n], u[|u| - n..];
      assert u == gone + kept;
      if id in gone {
        DisjointHalves(gone, kept, id);
        TouchGone(gone, kept, id);
      } else {
        TouchKept(gone, kept, id);
      }
    }
  }

  /** Evicting as it goes, the cache holds exactly the `n` most recently touched ids of its whole history. */
  lemma {:induction false} EvictionKeepsTheMostRecent(history: seq<Id>, n: nat)
    requires 0 < n
    ensures BoundedByRecency(history, n) == Last(ByRecency(history), n)
  {
    if history != [] {
      var front := history[..|history| - 1];
      EvictionKeepsTheMostRecent(front, n);
      RecencyIsDistinct(front);
      TouchThenCut(ByRecency(front), history[|history| - 1], n);
    }
  }

  /** The operations that can change a cache. */
  datatype Op = Looked(id: Id) | Wrote(item: Item) | Added(item: Item)

  const EMPTY := Cache([], map[])

  function Done(c: Cache, op: Op, n: nat): Cache {
    match op
    case Looked(id) => if id in c.entries then c.(order := Touched(c.order, id)) else c
    case Wrote(item) => Put(c, item, n)
    case Added(item) => PutMissing(c, item, n)
  }

  function Run(ops: seq<Op>, n: nat): Cache {
    if ops == [] then EMPTY else Done(Run(ops[..|ops| - 1], n), ops[|ops| - 1], n)
  }

  /** The id an operation touches, if any. */
  function Touches(c: Cache, op: Op): seq<Id> {
    match op
    case Looked(id) => if id in c.entries then [id] else []
    case Wrote(item) => [item.id]
    case Added(item) => if item.id in c.entries then [] else [item.id]
  }

  function AllTouches(ops: seq<Op>, n: nat): seq<Id> {
    if ops == [] then []
    else
      var front := ops[..|ops| - 1];
      AllTouches(front, n) + Touches(Run(front, n), ops[|ops| - 1])
  }

  lemma {:induction false} PutOrder(c: Cache, item: Item, n: nat)
    requires 0 < n && Valid(c, n)
    ensures Valid(Put(c, item, n), n) && Put(c, item, n).order == Last(Touched(c.order, item.id), n)
  {
    WithoutIsDistinct(c.order, item.id);
    PutKeepsValid(c, item, n);
  }

  lemma {:induction false} LookedUp(c: Cache, id: Id, n: nat)
    requires Valid(c, n) && id in c.entries
    ensures Valid(c.(order := Touched(c.order, id)), n) && Touched(c.order, id) == Last(Touched(c.order, id), n)
  {
    WithoutIsDistinct(c.order, id);
    TouchMatches(c, Item(id, c.entries[id]));
  }

  lemma {:induction false} OneOp(c: Cache, history: seq<Id>, op: Op, n: nat)
    requires 0 < n && Valid(c, n) && c.order == BoundedByRecency(history, n)
    ensures Valid(Done(c, op, n), n)
    ensures Done(c, op, n).order == BoundedByRecency(history + Touches(c, op), n)
  {
    if Touches(c, op) == [] {
      assert history + [] == history;
    } else {
      match op
      case Looked(id) => LookedUp(c, id, n);
      case Wrote(item) => PutOrder(c, item, n);
      case Added(item) => PutOrder(c, item, n);
    }
  }

  /** After any operations the cache holds the `n` ids touched last, oldest touch first. */
  lemma {:induction false} CacheHoldsTheMostRecent(ops: seq<Op>, n: nat)
    requires 0 < n
    ensures Valid(Run(ops, n), n)
    ensures Run(ops, n).order == BoundedByRecency(AllTouches(ops, n), n) == Last(ByRecency(AllTouches(ops, n)), n)
  {
    if ops != [] {
      var front := ops[..|ops| - 1];
      CacheHoldsTheMostRecent(front, n);
      OneOp(Run(front, n), AllTouches(front, n), ops[|ops| - 1], n);
    }
    EvictionKeepsTheMostRecent(AllTouches(ops, n), n);
  }

  /** The ids that adding `items` to a cache with this recency order inserts, one after the other. */
  function Inserted(order: seq<Id>, items: seq<Item>, n: nat): seq<Id> {
    if items == [] then []
    else
      var front, id := Inserted(order, items[..|items| - 1], n), items[|items| - 1].id;
      if id in Last(order + front, n) then front else front + [id]
  }

  lemma {:induction false} LastThenMore(s: seq<Id>, id: Id, n: nat)
    ensures Last(Last(s, n) + [id], n) == Last(s + [id], n)
  {}

  lemma {:induction false} PutMissingOrder(c: Cache, item: Item, n: nat)
    requires 0 < n && Valid(c, n) && item.id !in c.entries
    ensures Valid(Put(c, item, n), n) && Put(c, item, n).order == Last(c.order + [item.id], n)
  {
    WithoutAbsent(c.order, item.id);
    PutOrder(c, item, n);
  }

  /** What remains after adding: the old order and the insertions, cut to the bound. */
  lemma {:induction false} AddedOrder(c: Cache, items: seq<Item>, n: nat)
    requires 0 < n && Valid(c, n)
    ensures Valid(AddedAll(c, items, n), n)
    ensures AddedAll(c, items, n).order == Last(c.order + Inserted(c.order, items, n), n)
  {
    if items == [] {
      assert c.order + [] == c.order;
    } else {
      var front, item := items[..|items| - 1], items[|items| - 1];
      AddedOrder(c, front, n);
      var before := AddedAll(c, front, n);
      if item.id !in before.entries {
        PutMissingOrder(before, item, n);
        LastThenMore(c.order + Inserted(c.order, front, n), item.id, n);
        Regroup(c.order, Inserted(c.order, front, n), [item.id]);
      }
    }
  }

  lemma {:induction false} InLastOfMore(a: seq<Id>, b: seq<Id>, n: nat, id: Id)
    ensures id in Last(b, n) ==> id in Last(a + b, n)
    ensures id in Last(a + b, n) ==> id in a || id in Last(b, n)
  {
    if n <= |b| {
      LastOfLonger(a, b, n);
    } else {
      assert Last(b, n) == b;
      var at := |a + b| - |Last(a + b, n)|;
      assert Last(a + b, n) == (a + b)[at..] == a[at..] + b;
    }
  }

  lemma {:induction false} InsertedComeFrom(order: seq<Id>, items: seq<Item>, n: nat, id: Id)
    requires id in Inserted(order, items, n)
    ensures exists i :: 0 <= i < |items| && items[i].id == id
  {
    var front := items[..|items| - 1];
    if id in Inserted(order, front, n) {
      InsertedComeFrom(order, front, n, id);
      var i :| 0 <= i < |front| && front[i].id == id;
      assert items[i].id == id;
    } else {
      assert items[|items| - 1].id == id;
    }
  }

  lemma {:induction false} MissingAreInserted(order: seq<Id>, items: seq<Item>, n: nat, i: nat)
    requires i < |items| && items[i].id !in order
    ensures items[i].id in Inserted(order, items, n) && |Inserted(order, items, n)| <= |items|
    decreases |items|
  {
    var front := items[..|items| - 1];
    InsertedLength(order, items, n);
    if i < |items| - 1 {
      MissingAreInserted(order, front, n, i);
    } else if items[i].id in Last(order + Inserted(order, front, n), n) {
      InLastOfMore(order, Inserted(order, front, n), n, items[i].id);
    }
  }

  lemma {:induction false} InsertedLength(order: seq<Id>, items: seq<Item>, n: nat)
    ensures |Inserted(order, items, n)| <= |items|
  {
    if items != [] { InsertedLength(order, items[..|items| - 1], n); }
  }

  /** The reported number of additions is that of the insertions. */
  lemma {:induction false} AdditionsAreInsertions(c: Cache, items: seq<Item>, n: nat)
    requires 0 < n && Valid(c, n)
    ensures AddedCount(c, items, n) == |Inserted(c.order, items, n)|
  {
    if items != [] {
      var front, last := items[..|items| - 1], items[|items| - 1];
      AdditionsAreInsertions(c, front, n);
      AddedOrder(c, front, n);
      assert last.id in AddedAll(c, front, n).entries <==> last.id in Last(c.order + Inserted(c.order, front, n), n);
    }
  }

  /** The operation stores an entry for the id; an addition only does when the id is missing. */
  predicate Stores(c: Cache, op: Op, id: Id) {
    !op.Looked? && op.item.id == id && (op.Added? ==> id !in c.entries)
  }

  lemma {:induction false} EntryStep(c: Cache, op: Op, id: Id, n: nat)
    requires 0 < n && Valid(c, n) && id in Done(c, op, n).entries
    ensures Stores(c, op, id) ==> Done(c, op, n).entries[id] == op.item.entry
    ensures !Stores(c, op, id) ==> id in c.entries && Done(c, op, n).entries[id] == c.entries[id]
  {}

  /** No operation from the `i`-th on stores an entry for the id. */
  ghost predicate StoredBefore(ops: seq<Op>, n: nat, id: Id, i: nat) {
    forall j :: i <= j < |ops| ==> !Stores(Run(ops[..j], n), ops[j], id)
  }

  lemma {:induction false} StoredBeforeMore(ops: seq<Op>, n: nat, id: Id, i: nat)
    requires ops != [] && StoredBefore(ops[..|ops| - 1], n, id, i) && !Stores(Run(ops[..|ops| - 1], n), ops[|ops| - 1], id)
    ensures StoredBefore(ops, n, id, i)
  {
    var front := ops[..|ops| - 1];
    forall j | i <= j < |ops| ensures !Stores(Run(ops[..j], n), ops[j], id) {
      if j < |front| { assert ops[..j] == front[..j] && ops[j] == front[j]; }
    }
  }

  /** The `i`-th operation has stored the cached entry of the id, and none after it has stored one. */
  ghost predicate StoredLast(ops: seq<Op>, n: nat, id: Id, entry: Entry, i: nat) {
    i < |ops| && Stores(Run(ops[..i], n), ops[i], id) && entry == ops[i].item.entry && StoredBefore(ops, n, id, i + 1)
  }

  lemma {:induction false} StoredLastMore(ops: seq<Op>, n: nat, id: Id, entry: Entry, i: nat)
    requires ops != [] && StoredLast(ops[..|ops| - 1], n, id, entry, i)
    requires !Stores(Run(ops[..|ops| - 1], n), ops[|ops| - 1], id)
    ensures StoredLast(ops, n, id, entry, i)
  {
    var front := ops[..|ops| - 1];
    assert ops[..i] == front[..i] && ops[i] == front[i];
    StoredBeforeMore(ops, n, id, i + 1);
  }

  /** The cached entry of an id is the one stored for it last. */
  lemma {:induction false} EntriesAreTheLatest(ops: seq<Op>, n: nat, id: Id) returns (i: nat)
    requires 0 < n && id in Run(ops, n).entries
    ensures StoredLast(ops, n, id, Run(ops, n).entries[id], i)
  {
    var front, op := ops[..|ops| - 1], ops[|ops| - 1];
    CacheHoldsTheMostRecent(front, n);
    EntryStep(Run(front, n), op, id, n);
    if Stores(Run(front, n), op, id) {
      i := |front|;
    } else {
      i := EntriesAreTheLatest(front, n, id);
      StoredLastMore(ops, n, id, Run(ops, n).entries[id], i);
    }
  }
}
