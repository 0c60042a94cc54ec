/** The embedded database driver hands its single connection over with the same protocol as the generation lock. */
module PgliteDriver {
  import opened Sequences
  import opened HandOffLock
  import opened Wrappers

  /**
   * `client`, `connection` and `queue` are the fields of the driver; connections are numbered in order of creation.
   * `fetching` holds the callers waiting for the client, `holding` the connection each woken or running task was given.
   */
  datatype Driver = Driver(client: bool, connection: Option<nat>, queue: seq<Task>, created: nat,
                           fetching: seq<Task>, woken: seq<Task>, running: seq<Task>, holding: map<Task, nat>,
                           arrived: seq<Task>, entered: seq<Task>)

  datatype Call =
    | Acquire(t: Task)
    | Fetched(t: Task, ok: bool)   // the client promise settles
    | Granted(t: Task)             // the continuation of a woken caller
    | Release(t: Task)             // a holder gives back the connection it was handed
    | Destroy

  const CLOSED := Driver(false, None, [], 0, [], [], [], map[], [], [])

  predicate Possible(d: Driver, call: Call) {
    match call
    case Acquire(_) => true
    case Fetched(t, _) => t in d.fetching
    case Granted(t) => t in d.woken
    case Release(t) => t in d.running && t in d.holding
    case Destroy => true
  }

  /** The part of `acquireConnection` after the client is known. */
  function Claim(d: Driver, t: Task): Driver {
    var seen := d.(arrived := d.arrived + [t]);
    if d.connection.Some? then seen.(queue := d.queue + [t])
    else seen.(connection := Some(d.created), created := d.created + 1,
               running := d.running + [t], holding := d.holding[t := d.created], entered := d.entered + [t])
  }

  /** A release of anything but the current connection is rejected. */
  predicate Rejected(d: Driver, t: Task)
    requires t in d.holding
  {
    d.connection != Some(d.holding[t])
  }

  function After(d: Driver, call: Call): Driver
    requires Possible(d, call)
  {
    match call
    case Acquire(t) => if d.client then Claim(d, t) else d.(fetching := d.fetching + [t])
    case Fetched(t, ok) =>
      var back := d.(fetching := Without(d.fetching, t));
      if ok then Claim(back.(client := true), t) else back
    case Granted(t) =>
      d.(woken := Without(d.woken, t), running := d.running + [t], entered := d.entered + [t])
    case Release(t) =>
      if Rejected(d, t) then d
      else
        var left := d.(running := Without(d.running, t));
        if d.queue == [] then left.(connection := None)
        else left.(queue := d.queue[1..], woken := d.woken + [d.queue[0]],
                   holding := d.holding[d.queue[0] := d.connection.value])
    case Destroy => d.(client := false, connection := None, queue := [])
  }

  /** The lock the driver implements. */
  function Abstract(d: Driver): Lock {
    Lock(d.connection.Some?, d.queue, d.woken, d.running, d.arrived, d.entered)
  }

  /** The lock steps a call amounts to: none while the client is still being fetched. */
  function LockSteps(d: Driver, call: Call): seq<Step> {
    match call
    case Acquire(t) => if d.client then [Arrive(t)] else []
    case Fetched(t, ok) => if ok then [Arrive(t)] else []
    case Granted(t) => [Resume(t)]
    case Release(t) => [Leave(t)]
    case Destroy => []
  }

  ghost predicate Consistent(d: Driver) {
    && Safe(Abstract(d))
    && (d.connection.Some? ==> d.connection.value < d.created)
    && forall t :: t in d.woken + d.running ==> t in d.holding && d.connection == Some(d.holding[t])
  }

  lemma {:induction false} OneAtMost(d: Driver, t: Task)
    requires Safe(Abstract(d))
    ensures t in d.woken ==> d.woken == [t] && d.running == []
    ensures t in d.running ==> d.running == [t] && d.woken == []
  {}

  lemma {:induction false} HoldersAreNotRejected(d: Driver, call: Call)
    requires Consistent(d) && Possible(d, call)
    ensures call.Release? ==> !Rejected(d, call.t)
  {
    if call.Release? { assert call.t in d.woken + d.running; }
  }

  lemma {:induction false} HoldingsStayCurrent(d: Driver, call: Call)
    requires Consistent(d) && Possible(d, call) && call != Destroy
    ensures var e := After(d, call);
      forall t :: t in e.woken + e.running ==> t in e.holding && e.connection == Some(e.holding[t])
  {
    HoldersAreNotRejected(d, call);
    if call.Granted? || call.Release? { OneAtMost(d, call.t); }
  }

  /** Refinement: every driver call short of `destroy` is a run of the lock, and no holder is ever rejected. */
  lemma {:induction false} DriverRefinesLock(d: Driver, call: Call)
    requires Consistent(d) && Possible(d, call) && call != Destroy
    ensures Schedule(Abstract(d), LockSteps(d, call))
    ensures Abstract(After(d, call)) == Run(Abstract(d), LockSteps(d, call))
    ensures Consistent(After(d, call))
    ensures call.Release? ==> !Rejected(d, call.t)
  {
    HoldersAreNotRejected(d, call);
    HoldingsStayCurrent(d, call);
    RunKeepsSafe(Abstract(d), LockSteps(d, call));
  }

  ghost predicate Calls(d: Driver, calls: seq<Call>)
    decreases |calls|
  {
    calls == [] || (Possible(d, calls[0]) && calls[0] != Destroy && Calls(After(d, calls[0]), calls[1..]))
  }

  ghost function Outcome(d: Driver, calls: seq<Call>): Driver
    requires Calls(d, calls)
    decreases |calls|
  {
    if calls == [] then d else Outcome(After(d, calls[0]), calls[1..])
  }

  lemma {:induction false} CallsStayConsistent(d: Driver, calls: seq<Call>)
    requires Consistent(d) && Calls(d, calls)
    ensures Consistent(Outcome(d, calls))
    decreases |calls|
  {
    if calls != [] {
      DriverRefinesLock(d, calls[0]);
      CallsStayConsistent(After(d, calls[0]), calls[1..]);
    }
  }

  /** Over every run without `destroy` one caller at a time holds the connection, in the order in which they asked for it. */
  lemma {:induction false} OneHolderInOrder(calls: seq<Call>)
    requires Calls(CLOSED, calls)
    ensures var d := Outcome(CLOSED, calls);
      && |d.running| + |d.woken| <= 1
      && (d.queue != [] ==> |d.running| + |d.woken| == 1)
      && d.entered + d.woken + d.queue == d.arrived
  {
    CallsStayConsistent(CLOSED, calls);
  }

  // ---------------------------------------------------------------- destroying

  predicate TwoHolders(d: Driver) {
    |d.running| + |d.woken| > 1
  }

  /** A caller that asks after the driver was destroyed: the client is fetched again, then a connection is claimed. */
  lemma {:induction false} ClaimAfterDestroy(d: Driver, u: Task)
    ensures var calls := [Acquire(u), Fetched(u, true)];
      Calls(After(d, Destroy), calls) && Outcome(After(d, Destroy), calls).running == d.running + [u]
    ensures Outcome(After(d, Destroy), [Acquire(u), Fetched(u, true)]).woken == d.woken
    ensures Outcome(After(d, Destroy), [Acquire(u), Fetched(u, true)]).connection == Some(d.created)
    ensures Outcome(After(d, Destroy), [Acquire(u), Fetched(u, true)]).holding == d.holding[u := d.created]
  {
    var calls := [Acquire(u), Fetched(u, true)];
    var d0 := After(d, Destroy);
    var d1 := After(d0, calls[0]);
    assert calls[1..] == [Fetched(u, true)] && calls[1..][1..] == [];
    assert d1.fetching[|d1.fetching| - 1] == u;
    assert Calls(d1, calls[1..]) && Outcome(d1, calls[1..]) == After(d1, Fetched(u, true));
  }

  /** Destroying leads to two callers holding connections, by some later calls, exactly when a connection is out. */
  lemma {:induction false} DestroyIsSafeIff(d: Driver)
    requires Consistent(d)
    ensures (exists calls :: Calls(After(d, Destroy), calls) && TwoHolders(Outcome(After(d, Destroy), calls)))
      <==> d.connection.Some?
  {
    if d.connection.Some? {
      ClaimAfterDestroy(d, 0);
      var calls := [Acquire(0), Fetched(0, true)];
      assert Calls(After(d, Destroy), calls) && TwoHolders(Outcome(After(d, Destroy), calls));
    } else {
      forall calls | Calls(After(d, Destroy), calls) ensures !TwoHolders(Outcome(After(d, Destroy), calls)) {
        CallsStayConsistent(After(d, Destroy), calls);
      }
    }
  }

  /** The next caller is handed a second connection while the first is still in use, and the first holder's release is rejected. */
  lemma {:induction false} DestroyWhileHeld(d: Driver, t: Task, u: Task)
    requires Consistent(d) && d.running == [t]
    ensures var calls := [Acquire(u), Fetched(u, true)];
      && Calls(After(d, Destroy), calls)
      && var e := Outcome(After(d, Destroy), calls);
         e.running == [t, u] && t in e.holding && (u != t ==> Rejected(e, t))
  {
    assert t in d.woken + d.running;
    ClaimAfterDestroy(d, u);
  }

  /** The driver knows nothing of this caller any more. */
  predicate Forgotten(d: Driver, t: Task) {
    t !in d.fetching && t !in d.queue && t !in d.woken && t !in d.running
  }

  predicate NeverAsks(calls: seq<Call>, t: Task) {
    calls == [] || (calls[0] != Acquire(t) && NeverAsks(calls[1..], t))
  }

  lemma {:induction false} CallKeepsForgotten(d: Driver, call: Call, t: Task)
    requires Forgotten(d, t) && Possible(d, call) && call != Acquire(t)
    ensures Forgotten(After(d, call), t)
  {
    match call
    case Acquire(_) =>
    case Fetched(u, _) => WithoutMembers(d.fetching, u, t);
    case Granted(u) => WithoutMembers(d.woken, u, t);
    case Release(u) => WithoutMembers(d.running, u, t);
    case Destroy =>
  }

  lemma {:induction false} ForgottenStays(d: Driver, calls: seq<Call>, t: Task)
    requires Forgotten(d, t) && Calls(d, calls) && NeverAsks(calls, t)
    ensures Forgotten(Outcome(d, calls), t)
    decreases |calls|
  {
    if calls != [] {
      CallKeepsForgotten(d, calls[0], t);
      ForgottenStays(After(d, calls[0]), calls[1..], t);
    }
  }

  /** A caller that was queued when the driver was destroyed is never handed a connection, whatever the others do. */
  lemma {:induction false} QueuedCallersAreLost(d: Driver, calls: seq<Call>, t: Task)
    requires t in d.queue && t !in d.fetching + d.woken + d.running
    requires Calls(After(d, Destroy), calls) && NeverAsks(calls, t)
    ensures Forgotten(Outcome(After(d, Destroy), calls), t)
  {
    ForgottenStays(After(d, Destroy), calls, t);
  }

  /** The driver's own fields, with the runtime's view of its callers as ghost state. */
  class LazyPGliteDriver {
    var client: bool
    var connection: Option<nat>
    var queue: seq<Task>
    var created: nat
    ghost var fetching: seq<Task>
    ghost var woken: seq<Task>
    ghost var running: seq<Task>
    ghost var holding: map<Task, nat>
    ghost var arrived: seq<Task>
    ghost var entered: seq<Task>

    ghost function View(): Driver
      reads this
    {
      Driver(client, connection, queue, created, fetching, woken, running, holding, arrived, entered)
    }

    constructor ()
      ensures View() == CLOSED
    {
      client, connection, queue, created := false, None, [], 0;
      fetching, woken, running, holding, arrived, entered := [], [], [], map[], [], [];
    }

    /** The code after the client check: queue up behind the connection or create it. */
    method ClaimConnection(t: Task) returns (con: Option<nat>)
      modifies this
      ensures View() == Claim(old(View()), t)
      ensures con == if old(connection).Some? then None else connection
    {
      arrived := arrived + [t];
      if connection.Some? {
        queue := queue + [t];
        return None;
      }
      connection := Some(created);
      holding := holding[t := created];
      created := created + 1;
      running, entered := running + [t], entered + [t];
      return connection;
    }

    method AcquireConnection(t: Task)
      modifies this
      ensures View() == After(old(View()), Acquire(t))
    {
      if !client {
        fetching := fetching + [t];
        return;
      }
      var _ := ClaimConnection(t);
    }

    method ClientFetched(t: Task, ok: bool)
      requires Possible(View(), Fetched(t, ok))
      modifies this
      ensures View() == After(old(View()), Fetched(t, ok))
    {
      fetching := Without(fetching, t);
      if ok {
        client := true;
        var _ := ClaimConnection(t);
      }
    }

    /** `None` is the rejection of a connection that is not the current one. */
    method ReleaseConnection(t: Task, con: nat) returns (done: Option<()>)
      requires Possible(View(), Release(t)) && holding[t] == con
      modifies this
      ensures View() == After(old(View()), Release(t))
      ensures done.None? <==> old(Rejected(View(), t))
    {
      if connection != Some(con) { return None; }
      running := Without(running, t);
      if queue == [] {
        connection := None;
        return Some(());
      }
      woken := woken + [queue[0]];
      holding := holding[queue[0] := connection.value];
      queue := queue[1..];
      return Some(());
    }

    method DestroyDriver()
      modifies this
      ensures View() == After(old(View()), Destroy)
    {
      client := false;
      connection := None;
      queue := [];
    }
  }
}
