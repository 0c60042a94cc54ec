/** The asynchronous hand-off mutex, one step per stretch of code between two suspension points. */
module HandOffLock {
  import opened Sequences

  type Task = nat

  /**
   * `locked` and `waiters` are the variables of the source. `woken` holds the tasks whose promise has been resolved
   * but whose continuation has not run yet, `running` those inside the protected body. The last two are the history:
   * the order of arrival and the order of entry.
   */
  datatype Lock = Lock(locked: bool, waiters: seq<Task>, woken: seq<Task>, running: seq<Task>,
                       arrived: seq<Task>, entered: seq<Task>)

  datatype Step =
    | Arrive(t: Task)   // call, up to the first suspension: queue up, or enter at once
    | Resume(t: Task)   // the continuation of a woken waiter
    | Leave(t: Task)    // the body has settled, by value or by exception; the `finally` block runs

  const FREE := Lock(false, [], [], [], [], [])

  predicate Enabled(l: Lock, step: Step) {
    match step
    case Arrive(_) => true
    case Resume(t) => t in l.woken
    case Leave(t) => t in l.running
  }

  function Next(l: Lock, step: Step): Lock
    requires Enabled(l, step)
  {
    match step
    case Arrive(t) =>
      var seen := l.(arrived := l.arrived + [t]);
      if l.locked then seen.(waiters := l.waiters + [t])
      else seen.(locked := true, running := l.running + [t], entered := l.entered + [t])
    case Resume(t) =>
      l.(woken := Without(l.woken, t), locked := true, running := l.running + [t], entered := l.entered + [t])
    case Leave(t) =>
      var left := l.(running := Without(l.running, t));
      if l.waiters != [] then left.(waiters := l.waiters[1..], woken := l.woken + [l.waiters[0]])
      else left.(locked := false)
  }

  /** The flag counts the one task that is inside or about to be, and nobody has overtaken anybody. */
  predicate Safe(l: Lock) {
    && |l.running| + |l.woken| == (if l.locked then 1 else 0)
    && (!l.locked ==> l.waiters == [])
    && l.arrived == l.entered + l.woken + l.waiters
    && |l.running| <= |l.entered| && l.running == l.entered[|l.entered| - |l.running|..]
  }

  lemma {:induction false} ArrivalKeepsSafe(l: Lock, t: Task)
    requires Safe(l)
    ensures Safe(Next(l, Arrive(t)))
  {
    if l.locked {
      assert l.arrived + [t] == l.entered + l.woken + (l.waiters + [t]);
    } else {
      assert l.woken == [] && l.waiters == [] && l.running == [];
    }
  }

  lemma {:induction false} ResumptionKeepsSafe(l: Lock, t: Task)
    requires Safe(l) && t in l.woken
    ensures Safe(Next(l, Resume(t)))
  {
    assert l.woken == [t] && l.running == [];
    assert l.entered + [t] + [] + l.waiters == l.entered + [t] + l.waiters;
  }

  lemma {:induction false} LeavingKeepsSafe(l: Lock, t: Task)
    requires Safe(l) && t in l.running
    ensures Safe(Next(l, Leave(t)))
  {
    assert l.running == [t] && l.woken == [];
    if l.waiters != [] {
      assert l.entered + [] + l.waiters == l.entered + ([] + [l.waiters[0]]) + l.waiters[1..];
    }
  }

  lemma {:induction false} StepKeepsSafe(l: Lock, step: Step)
    requires Safe(l) && Enabled(l, step)
    ensures Safe(Next(l, step))
  {
    match step
    case Arrive(t) => ArrivalKeepsSafe(l, t);
    case Resume(t) => ResumptionKeepsSafe(l, t);
    case Leave(t) => LeavingKeepsSafe(l, t);
  }

  /** A schedule is any list of steps each of which is enabled when it is taken. */
  ghost predicate Schedule(l: Lock, steps: seq<Step>)
    decreases |steps|
  {
    steps == [] || (Enabled(l, steps[0]) && Schedule(Next(l, steps[0]), steps[1..]))
  }

  ghost function Run(l: Lock, steps: seq<Step>): Lock
    requires Schedule(l, steps)
    decreases |steps|
  {
    if steps == [] then l else Run(Next(l, steps[0]), steps[1..])
  }

  lemma {:induction false} RunKeepsSafe(l: Lock, steps: seq<Step>)
    requires Safe(l) && Schedule(l, steps)
    ensures Safe(Run(l, steps))
    decreases |steps|
  {
    if steps != [] {
      StepKeepsSafe(l, steps[0]);
      RunKeepsSafe(Next(l, steps[0]), steps[1..]);
    }
  }

  /**
   * In every interleaving at most one body runs, entries happen in order of arrival, and a waiter implies that the
   * lock is held or being handed over.
   */
  lemma {:induction false} MutualExclusionInArrivalOrder(steps: seq<Step>)
    requires Schedule(FREE, steps)
    ensures var l := Run(FREE, steps);
      && |l.running| <= 1
      && l.entered <= l.arrived
      && (l.waiters != [] ==> l.locked && |l.running| + |l.woken| == 1)
  {
    RunKeepsSafe(FREE, steps);
    var l := Run(FREE, steps);
    assert l.arrived[..|l.entered|] == l.entered;
  }

  /** Nobody is forgotten: while somebody waits some step other than a new arrival is possible. */
  lemma {:induction false} WaitersAreServed(steps: seq<Step>)
    requires Schedule(FREE, steps) && Run(FREE, steps).waiters != []
    ensures exists t :: Enabled(Run(FREE, steps), Resume(t)) || Enabled(Run(FREE, steps), Leave(t))
  {
    RunKeepsSafe(FREE, steps);
    var l := Run(FREE, steps);
    if l.running != [] {
      assert Enabled(l, Leave(l.running[0]));
    } else {
      assert Enabled(l, Resume(l.woken[0]));
    }
  }

  function Leaves(steps: seq<Step>): nat {
    if steps == [] then 0 else Leaves(steps[1..]) + (if steps[0].Leave? then 1 else 0)
  }

  lemma {:induction false} EntriesFollowLeaves(l: Lock, steps: seq<Step>)
    requires Safe(l) && Schedule(l, steps)
    ensures var m := Run(l, steps);
      |m.entered| - |m.running| == |l.entered| - |l.running| + Leaves(steps)
    decreases |steps|
  {
    if steps != [] {
      StepKeepsSafe(l, steps[0]);
      EntriesFollowLeaves(Next(l, steps[0]), steps[1..]);
    }
  }

  /** After `k` bodies have settled, the first `k` arrivals are done and the next one, if any, is in or being let in. */
  lemma {:induction false} NextArrivalIsServed(steps: seq<Step>)
    requires Schedule(FREE, steps)
    ensures var l, k := Run(FREE, steps), Leaves(steps);
      && k <= |l.arrived|
      && (k < |l.arrived| <==> |l.running| + |l.woken| == 1)
      && (k < |l.arrived| ==> l.running + l.woken == [l.arrived[k]])
  {
    RunKeepsSafe(FREE, steps);
    EntriesFollowLeaves(FREE, steps);
  }

  /** The module-level lock of the source. The ghost fields follow the tasks the runtime knows about. */
  class GenerationLock {
    var locked: bool
    var waiters: seq<Task>
    ghost var woken: seq<Task>
    ghost var running: seq<Task>
    ghost var arrived: seq<Task>
    ghost var entered: seq<Task>

    ghost function View(): Lock
      reads this
    {
      Lock(locked, waiters, woken, running, arrived, entered)
    }

    constructor ()
      ensures View() == FREE
    {
      locked, waiters, woken, running, arrived, entered := false, [], [], [], [], [];
    }

    /** Up to the first suspension: `suspended` tells whether the caller has to wait for its promise. */
    method Enter(t: Task) returns (suspended: bool)
      modifies this
      ensures View() == Next(old(View()), Arrive(t)) && suspended == old(locked)
    {
      arrived := arrived + [t];
      if locked {
        waiters := waiters + [t];
        return true;
      }
      locked := true;
      running, entered := running + [t], entered + [t];
      return false;
    }

    method Continue(t: Task)
      requires Enabled(View(), Resume(t))
      modifies this
      ensures View() == Next(old(View()), Resume(t))
    {
      woken := Without(woken, t);
      locked := true;
      running, entered := running + [t], entered + [t];
    }

    /** The `finally` block: hand over to the first waiter, or unlock. */
    method Release(t: Task)
      requires Enabled(View(), Leave(t))
      modifies this
      ensures View() == Next(old(View()), Leave(t))
    {
      running := Without(running, t);
      if waiters != [] {
        woken := woken + [waiters[0]];
        waiters := waiters[1..];
      } else {
        locked := false;
      }
    }
  }
}
