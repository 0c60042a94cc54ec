/** The room: one slot per remote peer, the roster that adds and drops them, the watchdog that rebuilds stuck pairs. */
module P2PRoom {
  import opened Sequences

  /** A peer id, with its rank among the ids in the order of their strings. */
  datatype PeerId = PeerId(rank: int)

  datatype ConnectionState = Fresh | Connecting | Connected | Disconnected | Failed | Closed

  /** `live` is the state of the connection object, `cached` the state last shown to the application. */
  datatype Slot = Slot(name: string, live: ConnectionState, cached: ConnectionState, lastProgressAt: int,
                       attempts: nat, terminal: bool, recreatedForOffer: bool)

  const STALL_MS := 10_000
  const MAX_RECOVERY_ATTEMPTS := 3

  function NewSlot(name: string, now: int): Slot {
    Slot(name, Fresh, Fresh, now, 0, false, false)
  }

  predicate Progress(state: ConnectionState) {
    state == Connecting || state == Connected
  }

  // ---------------------------------------------------------------- one pair

  /** The slot after the watchdog has read the live state. */
  function Refreshed(s: Slot, now: int): Slot {
    if s.live == s.cached then s
    else s.(cached := s.live, lastProgressAt := if Progress(s.live) then now else s.lastProgressAt)
  }

  predicate Stalled(s: Slot, now: int) {
    !s.terminal && s.live != Connected && now - Refreshed(s, now).lastProgressAt > STALL_MS
  }

  /** Rebuilt by the watchdog with a new connection. */
  predicate Rebuilds(s: Slot, dialer: bool, now: int) {
    dialer && Stalled(s, now) && s.attempts < MAX_RECOVERY_ATTEMPTS
  }

  /** One visit of the watchdog. */
  function Checked(s: Slot, dialer: bool, now: int): Slot {
    var r := Refreshed(s, now);
    if !Stalled(s, now) then r
    else if r.attempts >= MAX_RECOVERY_ATTEMPTS then r.(terminal := true)
    else if dialer then NewSlot(r.name, now).(attempts := r.attempts + 1)
    else r.(attempts := r.attempts + 1, lastProgressAt := now)
  }

  /** What happens to a pair: a watchdog visit, a state change with or without its event, an opened data channel, a remote
      offer that the old connection could not take, a new name in the roster. */
  datatype Event =
    | Tick(now: int)
    | StateChanged(state: ConnectionState, now: int)
    | WentSilently(state: ConnectionState)
    | ChannelOpened(now: int)
    | OfferAbsorbed(now: int)
    | Renamed(name: string)

  function After(s: Slot, dialer: bool, e: Event): Slot {
    match e
    case Tick(now) => Checked(s, dialer, now)
    case StateChanged(state, now) =>
      var seen := s.(live := state, cached := state,
                     lastProgressAt := if Progress(state) then now else s.lastProgressAt);
      if state == Connected then seen.(attempts := 0, terminal := false) else seen
    case WentSilently(state) => s.(live := state)
    case ChannelOpened(now) => s.(lastProgressAt := now)
    case OfferAbsorbed(now) =>
      if s.recreatedForOffer then s
      else NewSlot(s.name, now).(attempts := s.attempts, recreatedForOffer := true)
    case Renamed(name) => s.(name := name)
  }

  function AfterAll(s: Slot, dialer: bool, events: seq<Event>): Slot
    decreases |events|
  {
    if events == [] then s else AfterAll(After(s, dialer, events[0]), dialer, events[1..])
  }

  function Rebuilt(s: Slot, dialer: bool, events: seq<Event>): nat
    decreases |events|
  {
    if events == [] then 0
    else
      (if events[0].Tick? && Rebuilds(s, dialer, events[0].now) then 1 else 0)
      + Rebuilt(After(s, dialer, events[0]), dialer, events[1..])
  }

  predicate Connects(e: Event) {
    e.StateChanged? && e.state == Connected
  }

  function Connections(events: seq<Event>): nat {
    if events == [] then 0 else (if Connects(events[0]) then 1 else 0) + Connections(events[1..])
  }

  /** Visiting a pair twice in one round of the watchdog is visiting it once. */
  lemma {:induction false} CheckedTwice(s: Slot, dialer: bool, now: int)
    ensures Checked(Checked(s, dialer, now), dialer, now) == Checked(s, dialer, now)
    ensures !Rebuilds(Checked(s, dialer, now), dialer, now)
  {
  }

  /** The watchdog rebuilds a pair at most three times, and three more times after each time it connected. */
  lemma {:induction false} RebuildsAreBounded(s: Slot, dialer: bool, events: seq<Event>)
    requires s.attempts <= MAX_RECOVERY_ATTEMPTS
    ensures Rebuilt(s, dialer, events) <= MAX_RECOVERY_ATTEMPTS - s.attempts + MAX_RECOVERY_ATTEMPTS * Connections(events)
    decreases |events|
  {
    if events != [] {
      RebuildsAreBounded(After(s, dialer, events[0]), dialer, events[1..]);
    }
  }

  /** A dialer that never connects counts its rebuilds exactly; they stay at three at most, and a receiver makes none. */
  lemma {:induction false} NeverConnectedCountsRebuilds(s: Slot, dialer: bool, events: seq<Event>)
    requires s.attempts <= MAX_RECOVERY_ATTEMPTS && Connections(events) == 0
    ensures dialer ==> AfterAll(s, dialer, events).attempts == s.attempts + Rebuilt(s, dialer, events)
    ensures AfterAll(s, dialer, events).attempts <= MAX_RECOVERY_ATTEMPTS
    ensures !dialer ==> Rebuilt(s, dialer, events) == 0
    decreases |events|
  {
    if events != [] {
      NeverConnectedCountsRebuilds(After(s, dialer, events[0]), dialer, events[1..]);
    }
  }

  predicate Revives(e: Event) {
    Connects(e) || e.OfferAbsorbed?
  }

  predicate NothingRevives(events: seq<Event>) {
    events == [] || (!Revives(events[0]) && NothingRevives(events[1..]))
  }

  /** Once given up, a pair stays given up until it connects or absorbs an offer. */
  lemma {:induction false} TerminalStays(s: Slot, dialer: bool, events: seq<Event>)
    requires s.terminal && NothingRevives(events)
    ensures AfterAll(s, dialer, events).terminal && Rebuilt(s, dialer, events) == 0
    decreases |events|
  {
    if events != [] {
      assert After(s, dialer, events[0]).terminal;
      TerminalStays(After(s, dialer, events[0]), dialer, events[1..]);
    }
  }

  /** Watchdog visits further apart than the stall window, and nothing else. */
  predicate SlowTicks(events: seq<Event>, after: int) {
    events == [] || (events[0].Tick? && events[0].now - after > STALL_MS && SlowTicks(events[1..], events[0].now))
  }

  /** A pair in which nothing ever happens is rebuilt at each stalled visit until the third, and given up at the fourth. */
  lemma {:induction false} SilentPairIsRebuiltThreeTimes(s: Slot, events: seq<Event>)
    requires s.live != Connected && s.cached == s.live && !s.terminal && s.attempts <= MAX_RECOVERY_ATTEMPTS
    requires SlowTicks(events, s.lastProgressAt)
    ensures Rebuilt(s, true, events) == Min(|events|, MAX_RECOVERY_ATTEMPTS - s.attempts)
    ensures AfterAll(s, true, events).terminal <==> |events| > MAX_RECOVERY_ATTEMPTS - s.attempts
    decreases |events|
  {
    if events != [] {
      var next := After(s, true, events[0]);
      if s.attempts < MAX_RECOVERY_ATTEMPTS {
        SilentPairIsRebuiltThreeTimes(next, events[1..]);
      } else {
        SlowTicksReviveNothing(events[1..], events[0].now);
        TerminalStays(next, true, events[1..]);
      }
    }
  }

  /** Whatever a pair has gone through, a connection starts it over: when it is lost for good, the pair is again rebuilt
      three times and then given up. */
  lemma {:induction false} ConnectionStartsOver(s: Slot, lost: ConnectionState, at: int, later: int, ticks: seq<Event>)
    requires !Progress(lost) && SlowTicks(ticks, at)
    ensures var events := [StateChanged(Connected, at), StateChanged(lost, later)] + ticks;
      && Rebuilt(s, true, events) == Min(|ticks|, MAX_RECOVERY_ATTEMPTS)
      && (AfterAll(s, true, events).terminal <==> |ticks| > MAX_RECOVERY_ATTEMPTS)
  {
    var events := [StateChanged(Connected, at), StateChanged(lost, later)] + ticks;
    var connected := After(s, true, StateChanged(Connected, at));
    assert events[1..][0] == StateChanged(lost, later) && events[1..][1..] == ticks;
    SilentPairIsRebuiltThreeTimes(After(connected, true, StateChanged(lost, later)), ticks);
  }

  lemma {:induction false} SlowTicksReviveNothing(events: seq<Event>, after: int)
    requires SlowTicks(events, after)
    ensures NothingRevives(events)
    decreases |events|
  {
    if events != [] { SlowTicksReviveNothing(events[1..], events[0].now); }
  }

  predicate Advances(state: ConnectionState) {
    state in {Connecting, Connected}
  }

  /** Every visit comes within ten seconds of the last progress: a state change to connecting or connected, or a channel that
      opens, `since` being the one before. */
  predicate Lively(events: seq<Event>, since: int) {
    events == []
    || match events[0]
       case Tick(now) => since <= now <= since + 10_000 && Lively(events[1..], since)
       case StateChanged(state, now) => Lively(events[1..], if Advances(state) then now else since)
       case ChannelOpened(now) => Lively(events[1..], now)
       case OfferAbsorbed(now) => since <= now && Lively(events[1..], since)
       case WentSilently(_) => Lively(events[1..], since)
       case Renamed(_) => Lively(events[1..], since)
  }

  /** A pair that makes progress in time is never rebuilt, charged with an attempt or given up. */
  lemma {:induction false} LivelyPairIsLeftAlone(s: Slot, dialer: bool, events: seq<Event>, since: int)
    requires since <= s.lastProgressAt && Lively(events, since)
    ensures Rebuilt(s, dialer, events) == 0
    ensures AfterAll(s, dialer, events).attempts <= s.attempts && (!s.terminal ==> !AfterAll(s, dialer, events).terminal)
    decreases |events|
  {
    if events != [] {
      var e := events[0];
      var now := match e
        case StateChanged(state, now) => if Advances(state) then now else since
        case ChannelOpened(now) => now
        case _ => since;
      LivelyPairIsLeftAlone(After(s, dialer, e), dialer, events[1..], now);
    }
  }

  /** Nothing but new names and changes to states that are no progress. */
  predicate Idle(events: seq<Event>) {
    forall i :: 0 <= i < |events| ==>
      match events[i]
      case StateChanged(state, _) => !Advances(state)
      case WentSilently(state) => !Advances(state)
      case Renamed(_) => true
      case _ => false
  }

  lemma {:induction false} IdleChangesNothing(s: Slot, dialer: bool, events: seq<Event>)
    requires Idle(events) && (!Advances(s.live) || (s.live == Connecting && s.cached == Connecting))
    ensures var t := AfterAll(s, dialer, events);
      && t.lastProgressAt == s.lastProgressAt && t.attempts == s.attempts && t.terminal == s.terminal
      && (!Advances(t.live) || (t.live == Connecting && t.cached == Connecting))
    decreases |events|
  {
    if events != [] {
      var e := events[0];
      assert forall i :: 0 <= i < |events[1..]| ==> events[1..][i] == events[i + 1];
      IdleChangesNothing(After(s, dialer, e), dialer, events[1..]);
    }
  }

  /** A pair without progress for more than ten seconds is acted on at the next visit: the dialer replaces its connection and
      both sides count an attempt, or after three of them the pair is given up. */
  lemma {:induction false} OverduePairIsActedOn(s: Slot, dialer: bool, events: seq<Event>, now: int)
    requires Idle(events) && (!Advances(s.live) || (s.live == Connecting && s.cached == Connecting))
    requires !s.terminal && now - s.lastProgressAt > 10_000
    ensures var before := AfterAll(s, dialer, events);
      var after := After(before, dialer, Tick(now));
      if s.attempts >= 3 then after.terminal && after.attempts == s.attempts
      else
        && !after.terminal && after.attempts == s.attempts + 1 && after.lastProgressAt == now
        && (dialer <==> Rebuilds(before, dialer, now))
        && (dialer ==> after == Slot(before.name, Fresh, Fresh, now, s.attempts + 1, false, false))
        && (!dialer ==> after.live == before.live && after.name == before.name)
  {
    IdleChangesNothing(s, dialer, events);
  }

  // ---------------------------------------------------------------- the room

  datatype Member = Member(id: PeerId, name: string)

  /** The slots in the order they were added. */
  datatype Room = Room(order: seq<PeerId>, slots: map<PeerId, Slot>)

  ghost predicate WellFormed(r: Room) {
    Distinct(r.order) && forall id :: id in r.order <==> id in r.slots
  }

  predicate Dials(selfId: PeerId, id: PeerId) {
    selfId.rank > id.rank
  }

  /** One member of the roster: renamed when known, added when not; the room never holds a slot for itself. */
  function Joined(r: Room, selfId: PeerId, m: Member, now: int): Room {
    if m.id == selfId then r
    else if m.id in r.slots then r.(slots := r.slots[m.id := r.slots[m.id].(name := m.name)])
    else Room(r.order + [m.id], r.slots[m.id := NewSlot(m.name, now)])
  }

  function AllJoined(r: Room, selfId: PeerId, roster: seq<Member>, now: int): Room {
    if roster == [] then r
    else Joined(AllJoined(r, selfId, roster[..|roster| - 1], now), selfId, roster[|roster| - 1], now)
  }

  /** The ids that are in `marks`, or those that are not, in order. */
  function Sifted(ids: seq<PeerId>, marks: set<PeerId>, wanted: bool): seq<PeerId> {
    if ids == [] then []
    else
      var n := |ids| - 1;
      Sifted(ids[..n], marks, wanted) + (if (ids[n] in marks) == wanted then [ids[n]] else [])
  }

  function Listed(roster: seq<Member>): set<PeerId> {
    set m | m in roster :: m.id
  }

  function Pruned(r: Room, alive: set<PeerId>): Room {
    Room(Sifted(r.order, alive, true), map id | id in r.slots && id in alive :: r.slots[id])
  }

  /** `reconcileRoster`. */
  function Reconciled(r: Room, selfId: PeerId, roster: seq<Member>, now: int): Room {
    Pruned(AllJoined(r, selfId, roster, now), Listed(roster))
  }

  function Rebuilding(r: Room, selfId: PeerId, now: int): set<PeerId> {
    set id | id in r.slots && Rebuilds(r.slots[id], Dials(selfId, id), now)
  }

  /** A round of the watchdog: every pair is checked once, and the rebuilt ones move to the end. */
  function Watched(r: Room, selfId: PeerId, now: int): Room {
    var marks := Rebuilding(r, selfId, now);
    Room(Sifted(r.order, marks, false) + Sifted(r.order, marks, true),
         map id | id in r.slots :: Checked(r.slots[id], Dials(selfId, id), now))
  }

  function Dropped(r: Room, id: PeerId): Room {
    Room(Without(r.order, id), r.slots - {id})
  }

  /** One turn of the watchdog's loop, for the pair `id`. */
  function Turned(r: Room, selfId: PeerId, id: PeerId, now: int): Room
    requires id in r.slots
  {
    var slot := r.slots[id];
    Room(if Rebuilds(slot, Dials(selfId, id), now) then Without(r.order, id) + [id] else r.order,
         r.slots[id := Checked(slot, Dials(selfId, id), now)])
  }

  /** An event of one pair other than a watchdog visit or a new name; a pair that is recreated moves to the end. */
  function Happened(r: Room, selfId: PeerId, id: PeerId, e: Event): Room
    requires id in r.slots
  {
    var slot := r.slots[id];
    Room(if e.OfferAbsorbed? && !slot.recreatedForOffer then Without(r.order, id) + [id] else r.order,
         r.slots[id := After(slot, Dials(selfId, id), e)])
  }

  lemma {:induction false} MovedIsWellFormed(r: Room, id: PeerId, slot: Slot)
    requires WellFormed(r) && id in r.slots
    ensures WellFormed(Room(Without(r.order, id) + [id], r.slots[id := slot]))
    ensures (r.slots - {id})[id := slot] == r.slots[id := slot]
  {
    WithoutIsDistinct(r.order, id);
    forall x ensures x in Without(r.order, id) + [id] <==> x in r.slots { WithoutMembers(r.order, id, x); }
  }

  class P2PRoom {
    const selfId: PeerId
    var order: seq<PeerId>
    var slots: map<PeerId, Slot>
    var closed: bool

    ghost function View(): Room
      reads this
    {
      Room(order, slots)
    }

    constructor (selfId: PeerId)
      ensures this.selfId == selfId && !closed && View() == Room([], map[]) && WellFormed(View())
    {
      this.selfId := selfId;
      order, slots, closed := [], map[], false;
    }

    /** Adds or renames the members, then drops the slots of peers that are gone. */
    method ReconcileRoster(roster: seq<Member>, now: int)
      requires WellFormed(View())
      modifies this
      ensures closed == old(closed)
      ensures WellFormed(View()) && View() == Reconciled(old(View()), selfId, roster, now)
    {
      for i := 0 to |roster|
        invariant closed == old(closed)
        invariant WellFormed(View()) && View() == AllJoined(old(View()), selfId, roster[..i], now)
      {
        assert roster[..i + 1][..i] == roster[..i];
        var m := roster[i];
        if m.id != selfId {
          if m.id in slots {
            slots := slots[m.id := slots[m.id].(name := m.name)];
          } else {
            slots := slots[m.id := NewSlot(m.name, now)];
            order := order + [m.id];
          }
        }
      }
      assert roster[..|roster|] == roster;
      DropAbsent(Listed(roster));
    }

    method Disconnect(id: PeerId)
      modifies this
      ensures closed == old(closed)
      ensures View() == Dropped(old(View()), id)
    {
      order := Without(order, id);
      slots := slots - {id};
    }

    method Connect(id: PeerId, slot: Slot)
      modifies this
      ensures closed == old(closed)
      ensures View() == Room(old(order) + [id], old(slots)[id := slot])
    {
      slots := slots[id := slot];
      order := order + [id];
    }

    method DropAbsent(alive: set<PeerId>)
      requires WellFormed(View())
      modifies this
      ensures closed == old(closed)
      ensures WellFormed(View()) && View() == Pruned(old(View()), alive)
    {
      ghost var before := View();
      var all := order;
      for i := 0 to |all|
        invariant closed == old(closed) && Dropping(before, View(), alive, i)
      {
        DropAdvances(before, View(), alive, i);
        if all[i] !in alive { Disconnect(all[i]); }
      }
      DropEnds(before, View(), alive);
    }

    method CheckPair(id: PeerId, now: int) returns (rebuilt: bool)
      requires id in slots
      modifies this
      ensures closed == old(closed)
      ensures rebuilt == Rebuilds(old(slots)[id], Dials(selfId, id), now)
      ensures View() == Turned(old(View()), selfId, id, now)
    {
      rebuilt := false;
      var slot := slots[id];
      if slot.live != slot.cached {
        slot := slot.(cached := slot.live);
        if slot.live == Connecting || slot.live == Connected { slot := slot.(lastProgressAt := now); }
      }
      if !(slot.terminal || slot.live == Connected) && now - slot.lastProgressAt > STALL_MS {
        if slot.attempts >= MAX_RECOVERY_ATTEMPTS {
          slot := slot.(terminal := true);
        } else {
          slot := slot.(attempts := slot.attempts + 1, lastProgressAt := now);
          if Dials(selfId, id) {
            rebuilt := true;
            order := Without(order, id) + [id];
            slot := NewSlot(slot.name, now).(attempts := slot.attempts);
          }
        }
      }
      slots := slots[id := slot];
    }

    /** A state change that the connection reports. */
    method OnConnectionStateChange(id: PeerId, state: ConnectionState, now: int)
      requires WellFormed(View()) && id in slots
      modifies this
      ensures closed == old(closed)
      ensures WellFormed(View()) && View() == Happened(old(View()), selfId, id, StateChanged(state, now))
    {
      var slot := slots[id].(live := state, cached := state);
      if state == Connecting || state == Connected { slot := slot.(lastProgressAt := now); }
      if state == Connected { slot := slot.(attempts := 0, terminal := false); }
      slots := slots[id := slot];
    }

    /** The connection could not take a remote offer: the pair is rebuilt once to absorb it. */
    method AbsorbOffer(id: PeerId, now: int) returns (absorbed: bool)
      requires WellFormed(View()) && id in slots
      modifies this
      ensures closed == old(closed) && absorbed == !old(slots)[id].recreatedForOffer
      ensures WellFormed(View()) && View() == Happened(old(View()), selfId, id, OfferAbsorbed(now))
    {
      var slot := slots[id];
      if slot.recreatedForOffer { return false; }
      var replaced := NewSlot(slot.name, now).(attempts := slot.attempts, recreatedForOffer := true);
      MovedIsWellFormed(View(), id, replaced);
      Disconnect(id);
      Connect(id, replaced);
      absorbed := true;
    }

    /** The slots are visited in order; one that is rebuilt is added at the end and so visited again. */
    method Watchdog(now: int)
      requires WellFormed(View())
      modifies this
      ensures closed == old(closed)
      ensures WellFormed(View()) && View() == (if closed then old(View()) else Watched(old(View()), selfId, now))
    {
      if closed { return; }
      ghost var before := View();
      var visits, k := order, 0;
      RoundStarts(before, selfId, now);
      while k < |visits|
        invariant !closed && InRound(before, View(), visits, selfId, now, k)
        decreases Left(before, selfId, now) - k
      {
        var id := visits[k];
        TurnAdvances(before, View(), visits, selfId, now, k);
        var rebuilt := CheckPair(id, now);
        if rebuilt { visits := visits + [id]; }
        k := k + 1;
      }
      RoundEnds(before, View(), visits, selfId, now);
    }
  }

  /** How many of the slots have been visited for the first time. */
  function Seen(k: nat, all: seq<PeerId>): nat {
    if k < |all| then k else |all|
  }

  /** The room during a round: the first `n` pairs have been checked, and the rebuilt ones among them moved to the end. */
  ghost predicate InProgress(before: Room, r: Room, selfId: PeerId, now: int, n: nat) {
    var all, marks := before.order, Rebuilding(before, selfId, now);
    && n <= |all|
    && r.order == Sifted(all[..n], marks, false) + all[n..] + Sifted(all[..n], marks, true)
    && (forall id :: id in r.slots <==> id in before.slots)
    && (forall i :: 0 <= i < n && all[i] in r.slots ==>
          r.slots[all[i]] == Checked(before.slots[all[i]], Dials(selfId, all[i]), now))
    && (forall i :: n <= i < |all| && all[i] in r.slots ==> r.slots[all[i]] == before.slots[all[i]])
  }

  /** The same with the list of visits: all pairs, then those rebuilt so far. */
  ghost predicate InRound(before: Room, r: Room, visits: seq<PeerId>, selfId: PeerId, now: int, k: nat) {
    var all, marks := before.order, Rebuilding(before, selfId, now);
    && k <= |visits|
    && visits == all + Sifted(all[..Seen(k, all)], marks, true)
    && InProgress(before, r, selfId, now, Seen(k, all))
  }

  ghost function Left(before: Room, selfId: PeerId, now: int): nat {
    |before.order| + |Sifted(before.order, Rebuilding(before, selfId, now), true)|
  }

  /** Dropping absent peers, the first `i` of the old order done. */
  ghost predicate Dropping(before: Room, r: Room, alive: set<PeerId>, i: nat) {
    var all := before.order;
    && i <= |all|
    && r.order == Sifted(all[..i], alive, true) + all[i..]
    && OnlyKept(before.slots, r.slots, alive, all[i..])
  }

  /** The slots of the peers that are alive or not yet looked at, unchanged. */
  ghost predicate OnlyKept(before: map<PeerId, Slot>, slots: map<PeerId, Slot>, alive: set<PeerId>, rest: seq<PeerId>) {
    && (forall id :: id in slots <==> id in before && (id in alive || id in rest))
    && (forall id :: id in slots ==> slots[id] == before[id])
  }

  lemma {:induction false} SiftOne(all: seq<PeerId>, marks: set<PeerId>, wanted: bool, i: nat)
    requires i < |all|
    ensures all[i..] == [all[i]] + all[i + 1..]
    ensures Sifted(all[..i + 1], marks, wanted)
         == Sifted(all[..i], marks, wanted) + (if (all[i] in marks) == wanted then [all[i]] else [])
  {
    assert all[..i + 1][..i] == all[..i];
  }

  lemma {:induction false} SiftedMembers(ids: seq<PeerId>, marks: set<PeerId>, wanted: bool, x: PeerId)
    ensures x in Sifted(ids, marks, wanted) <==> x in ids && (x in marks) == wanted
  {
    if ids != [] {
      SiftedMembers(ids[..|ids| - 1], marks, wanted, x);
      assert ids == ids[..|ids| - 1] + [ids[|ids| - 1]];
    }
  }

  lemma {:induction false} SiftedIsDistinct(ids: seq<PeerId>, marks: set<PeerId>, wanted: bool)
    requires Distinct(ids)
    ensures Distinct(Sifted(ids, marks, wanted))
  {
    if ids != [] {
      var n := |ids| - 1;
      SiftedIsDistinct(ids[..n], marks, wanted);
      SiftedMembers(ids[..n], marks, wanted, ids[n]);
    }
  }

  lemma {:induction false} SiftedComeFrom(ids: seq<PeerId>, marks: set<PeerId>, wanted: bool, j: nat)
    requires j < |Sifted(ids, marks, wanted)|
    ensures Sifted(ids, marks, wanted)[j] in ids
  {
    SiftedMembers(ids, marks, wanted, Sifted(ids, marks, wanted)[j]);
  }

  lemma {:induction false} MiddleOut(a: seq<PeerId>, x: PeerId, b: seq<PeerId>)
    requires x !in a
    ensures Without(a + ([x] + b), x) == a + b
  {
    WithoutAppend(a, [x] + b, x);
    assert ([x] + b)[1..] == b;
  }

  lemma {:induction false} NotSiftedYet(all: seq<PeerId>, marks: set<PeerId>, wanted: bool, i: nat)
    requires Distinct(all) && i < |all|
    ensures all[i] !in Sifted(all[..i], marks, wanted)
  {
    SiftedMembers(all[..i], marks, wanted, all[i]);
  }

  lemma {:induction false} DropOrder(all: seq<PeerId>, alive: set<PeerId>, i: nat)
    requires Distinct(all) && i < |all|
    ensures var order := Sifted(all[..i], alive, true) + all[i..];
      (if all[i] in alive then order else Without(order, all[i])) == Sifted(all[..i + 1], alive, true) + all[i + 1..]
  {
    var kept, id, rest := Sifted(all[..i], alive, true), all[i], all[i + 1..];
    SiftOne(all, alive, true, i);
    if id in alive {
      Regroup(kept, [id], rest);
    } else {
      NotSiftedYet(all, alive, true, i);
      MiddleOut(kept, id, rest);
    }
  }

  lemma {:induction false} RestOf(all: seq<PeerId>, i: nat, id: PeerId)
    requires Distinct(all) && i < |all|
    ensures id in all[i + 1..] <==> id in all[i..] && id != all[i]
  {
    assert all[i..] == [all[i]] + all[i + 1..];
  }

  lemma {:induction false} DropSlot(before: map<PeerId, Slot>, slots: map<PeerId, Slot>, alive: set<PeerId>,
                                    all: seq<PeerId>, i: nat)
    requires Distinct(all) && i < |all| && OnlyKept(before, slots, alive, all[i..])
    ensures OnlyKept(before, if all[i] in alive then slots else slots - {all[i]}, alive, all[i + 1..])
  {
    forall id ensures id in all[i + 1..] <==> id in all[i..] && id != all[i] { RestOf(all, i, id); }
  }

  lemma {:induction false} DropAdvances(before: Room, r: Room, alive: set<PeerId>, i: nat)
    requires WellFormed(before) && Dropping(before, r, alive, i) && i < |before.order|
    ensures var id := before.order[i];
      Dropping(before, if id in alive then r else Dropped(r, id), alive, i + 1)
  {
    DropOrder(before.order, alive, i);
    DropSlot(before.slots, r.slots, alive, before.order, i);
  }

  lemma {:induction false} DropEnds(before: Room, r: Room, alive: set<PeerId>)
    requires WellFormed(before) && Dropping(before, r, alive, |before.order|)
    ensures WellFormed(r) && r == Pruned(before, alive)
  {
    var all := before.order;
    assert all[..|all|] == all && Sifted(all, alive, true) + [] == Sifted(all, alive, true);
    SiftedIsDistinct(all, alive, true);
    forall id ensures id in r.order <==> id in r.slots {
      SiftedMembers(all, alive, true, id);
    }
  }

  /** What the turn for the `n`-th pair does to a round in progress. */
  lemma {:induction false} FirstVisit(before: Room, r: Room, selfId: PeerId, now: int, n: nat)
    requires WellFormed(before) && InProgress(before, r, selfId, now, n) && n < |before.order|
    ensures var all, id, marks := before.order, before.order[n], Rebuilding(before, selfId, now);
      && id in r.slots
      && (id in marks <==> Rebuilds(r.slots[id], Dials(selfId, id), now))
      && Sifted(all[..n + 1], marks, true) == Sifted(all[..n], marks, true) + (if id in marks then [id] else [])
      && InProgress(before, Turned(r, selfId, id, now), selfId, now, n + 1)
  {
    var all, id, marks := before.order, before.order[n], Rebuilding(before, selfId, now);
    assert id in all;
    SiftOne(all, marks, true, n);
    SiftOne(all, marks, false, n);
    TurnOrder(all, marks, n);
  }

  /** A pair visited again has just been rebuilt: the turn changes nothing. */
  lemma {:induction false} SecondVisit(before: Room, r: Room, selfId: PeerId, now: int, j: nat)
    requires WellFormed(before) && InProgress(before, r, selfId, now, |before.order|)
    requires j < |Sifted(before.order, Rebuilding(before, selfId, now), true)|
    ensures var id := Sifted(before.order, Rebuilding(before, selfId, now), true)[j];
      id in r.slots && !Rebuilds(r.slots[id], Dials(selfId, id), now) && Turned(r, selfId, id, now) == r
  {
    var all, marks := before.order, Rebuilding(before, selfId, now);
    var id := Sifted(all, marks, true)[j];
    SiftedComeFrom(all, marks, true, j);
    CheckedTwice(before.slots[id], Dials(selfId, id), now);
    assert r.slots[id := r.slots[id]] == r.slots;
  }

  lemma {:induction false} RoundStarts(before: Room, selfId: PeerId, now: int)
    requires WellFormed(before)
    ensures InRound(before, before, before.order, selfId, now, 0)
  {
    var all := before.order;
    assert all[..0] == [] && all[0..] == all && all + [] == all;
  }

  lemma {:induction false} NextVisit(all: seq<PeerId>, marks: set<PeerId>, visits: seq<PeerId>, k: nat)
    requires k < |visits| && visits == all + Sifted(all[..Seen(k, all)], marks, true)
    ensures k < |all| ==> visits[k] == all[k]
    ensures k < |all| ==>
      (if all[k] in marks then visits + [all[k]] else visits) == all + Sifted(all[..k + 1], marks, true)
    ensures k >= |all| ==>
      k - |all| < |Sifted(all, marks, true)| && visits[k] == Sifted(all, marks, true)[k - |all|]
    ensures k >= |all| ==> k < |all| + |Sifted(all, marks, true)|
  {
    if k < |all| {
      SiftOne(all, marks, true, k);
      Regroup(all, Sifted(all[..k], marks, true), [all[k]]);
    } else {
      assert all[..|all|] == all;
    }
  }

  lemma {:induction false} TurnAdvances(before: Room, r: Room, visits: seq<PeerId>, selfId: PeerId, now: int, k: nat)
    requires WellFormed(before) && InRound(before, r, visits, selfId, now, k) && k < |visits|
    ensures var id := visits[k];
      && id in r.slots && k < Left(before, selfId, now)
      && InRound(before, Turned(r, selfId, id, now),
                 if Rebuilds(r.slots[id], Dials(selfId, id), now) then visits + [id] else visits, selfId, now, k + 1)
  {
    NextVisit(before.order, Rebuilding(before, selfId, now), visits, k);
    if k < |before.order| {
      FirstVisit(before, r, selfId, now, k);
    } else {
      SecondVisit(before, r, selfId, now, k - |before.order|);
    }
  }

  lemma {:induction false} FromTheMiddle(a: seq<PeerId>, x: PeerId, b: seq<PeerId>, c: seq<PeerId>)
    requires x !in a
    ensures Without(a + ([x] + b) + c, x) + [x] == a + b + (c + [x])
  {
    assert a + ([x] + b) + c == a + ([x] + (b + c));
    MiddleOut(a, x, b + c);
    assert (a + (b + c)) + [x] == a + b + (c + [x]);
  }

  lemma {:induction false} TurnOrder(all: seq<PeerId>, marks: set<PeerId>, n: nat)
    requires Distinct(all) && n < |all|
    ensures var id, stay, moved := all[n], Sifted(all[..n], marks, false), Sifted(all[..n], marks, true);
      var order := stay + all[n..] + moved;
      (if id in marks then Without(order, id) + [id] else order)
      == Sifted(all[..n + 1], marks, false) + all[n + 1..] + Sifted(all[..n + 1], marks, true)
  {
    var id, stay, moved := all[n], Sifted(all[..n], marks, false), Sifted(all[..n], marks, true);
    var rest := all[n + 1..];
    SiftOne(all, marks, true, n);
    SiftOne(all, marks, false, n);
    NotSiftedYet(all, marks, false, n);
    if id in marks {
      FromTheMiddle(stay, id, rest, moved);
    } else {
      Regroup(stay, [id], rest);
    }
  }

  lemma {:induction false} ApartAreDistinct(all: seq<PeerId>, marks: set<PeerId>)
    requires Distinct(all)
    ensures Distinct(Sifted(all, marks, false) + Sifted(all, marks, true))
    ensures forall x :: x in Sifted(all, marks, false) + Sifted(all, marks, true) <==> x in all
  {
    var stay, moved := Sifted(all, marks, false), Sifted(all, marks, true);
    SiftedIsDistinct(all, marks, false);
    SiftedIsDistinct(all, marks, true);
    forall i, j | 0 <= i < |stay| && 0 <= j < |moved| ensures stay[i] != moved[j] {
      SiftedMembers(all, marks, false, stay[i]);
      SiftedMembers(all, marks, true, moved[j]);
    }
    forall x ensures x in stay + moved <==> x in all {
      SiftedMembers(all, marks, false, x);
      SiftedMembers(all, marks, true, x);
    }
  }

  lemma {:induction false} RoundOrder(before: Room, r: Room, selfId: PeerId, now: int)
    requires WellFormed(before) && InProgress(before, r, selfId, now, |before.order|)
    ensures r.order == Watched(before, selfId, now).order
  {
    var all := before.order;
    assert all[..|all|] == all;
  }

  lemma {:induction false} RoundEnds(before: Room, r: Room, visits: seq<PeerId>, selfId: PeerId, now: int)
    requires WellFormed(before) && InRound(before, r, visits, selfId, now, |visits|)
    ensures WellFormed(r) && r == Watched(before, selfId, now)
  {
    RoundOrder(before, r, selfId, now);
    ApartAreDistinct(before.order, Rebuilding(before, selfId, now));
  }

  // ---------------------------------------------------------------- runs of the room

  datatype RoomEvent = Watch(now: int) | Roster(members: seq<Member>, now: int) | Happens(id: PeerId, event: Event)

  predicate OwnEvent(e: Event) {
    !e.Tick? && !e.Renamed?
  }

  function Next(r: Room, selfId: PeerId, e: RoomEvent): Room {
    match e
    case Watch(now) => Watched(r, selfId, now)
    case Roster(members, now) => Reconciled(r, selfId, members, now)
    case Happens(id, event) => if id in r.slots && OwnEvent(event) then Happened(r, selfId, id, event) else r
  }

  function Run(r: Room, selfId: PeerId, events: seq<RoomEvent>): Room
    decreases |events|
  {
    if events == [] then r else Run(Next(r, selfId, events[0]), selfId, events[1..])
  }

  function Renames(members: seq<Member>, id: PeerId): seq<Event> {
    if members == [] then []
    else
      var n := |members| - 1;
      Renames(members[..n], id) + (if members[n].id == id then [Renamed(members[n].name)] else [])
  }

  /** What an event of the room means for one pair. */
  function ForPair(e: RoomEvent, id: PeerId): seq<Event> {
    match e
    case Watch(now) => [Tick(now)]
    case Roster(members, _) => Renames(members, id)
    case Happens(other, event) => if other == id && OwnEvent(event) then [event] else []
  }

  function AllForPair(events: seq<RoomEvent>, id: PeerId): seq<Event> {
    if events == [] then [] else ForPair(events[0], id) + AllForPair(events[1..], id)
  }

  /** Every roster of the run lists the peer. */
  predicate StaysListed(events: seq<RoomEvent>, id: PeerId) {
    events == []
    || ((events[0].Roster? ==> id in Listed(events[0].members)) && StaysListed(events[1..], id))
  }

  /** How often the room's watchdog rebuilds the pair. */
  function RebuiltInRoom(r: Room, selfId: PeerId, id: PeerId, events: seq<RoomEvent>): nat
    decreases |events|
  {
    if events == [] then 0
    else
      (if events[0].Watch? && id in Rebuilding(r, selfId, events[0].now) then 1 else 0)
      + RebuiltInRoom(Next(r, selfId, events[0]), selfId, id, events[1..])
  }

  lemma {:induction false} AfterAllAppend(s: Slot, dialer: bool, a: seq<Event>, b: seq<Event>)
    ensures AfterAll(s, dialer, a + b) == AfterAll(AfterAll(s, dialer, a), dialer, b)
    ensures Rebuilt(s, dialer, a + b) == Rebuilt(s, dialer, a) + Rebuilt(AfterAll(s, dialer, a), dialer, b)
    decreases |a|
  {
    if a == [] {
      assert a + b == b;
    } else {
      assert (a + b)[1..] == a[1..] + b;
      AfterAllAppend(After(s, dialer, a[0]), dialer, a[1..], b);
    }
  }

  lemma {:induction false} OneEventRun(s: Slot, dialer: bool, e: Event)
    ensures AfterAll(s, dialer, [e]) == After(s, dialer, e)
    ensures Rebuilt(s, dialer, [e]) == if e.Tick? && Rebuilds(s, dialer, e.now) then 1 else 0
  {
    assert [e][1..] == [];
  }

  lemma {:induction false} JoiningRenames(r: Room, selfId: PeerId, members: seq<Member>, now: int, id: PeerId)
    requires id in r.slots && id != selfId
    ensures var joined := AllJoined(r, selfId, members, now);
      id in joined.slots && joined.slots[id] == AfterAll(r.slots[id], Dials(selfId, id), Renames(members, id))
    ensures Rebuilt(r.slots[id], Dials(selfId, id), Renames(members, id)) == 0
  {
    if members != [] {
      var front, m := members[..|members| - 1], members[|members| - 1];
      JoiningRenames(r, selfId, front, now, id);
      if m.id == id {
        AfterAllAppend(r.slots[id], Dials(selfId, id), Renames(front, id), [Renamed(m.name)]);
        OneEventRun(AfterAll(r.slots[id], Dials(selfId, id), Renames(front, id)), Dials(selfId, id), Renamed(m.name));
      } else {
        assert Renames(members, id) == Renames(front, id);
      }
    }
  }

  lemma {:induction false} StepForPair(r: Room, selfId: PeerId, e: RoomEvent, id: PeerId)
    requires id in r.slots && id != selfId && (e.Roster? ==> id in Listed(e.members))
    ensures var next, own, dialer := Next(r, selfId, e), ForPair(e, id), Dials(selfId, id);
      && id in next.slots && next.slots[id] == AfterAll(r.slots[id], dialer, own)
      && Rebuilt(r.slots[id], dialer, own) == if e.Watch? && id in Rebuilding(r, selfId, e.now) then 1 else 0
  {
    match e
    case Watch(now) => OneEventRun(r.slots[id], Dials(selfId, id), Tick(now));
    case Roster(members, now) => JoiningRenames(r, selfId, members, now, id);
    case Happens(other, event) => OneEventRun(r.slots[id], Dials(selfId, id), event);
  }

  /** In any run of the room, a pair that stays in the roster lives through its own events and the watchdog's, nothing else. */
  lemma {:induction false} PairsAreIndependent(r: Room, selfId: PeerId, events: seq<RoomEvent>, id: PeerId)
    requires id in r.slots && id != selfId && StaysListed(events, id)
    ensures var last, own, dialer := Run(r, selfId, events), AllForPair(events, id), Dials(selfId, id);
      && id in last.slots && last.slots[id] == AfterAll(r.slots[id], dialer, own)
      && RebuiltInRoom(r, selfId, id, events) == Rebuilt(r.slots[id], dialer, own)
    decreases |events|
  {
    if events != [] {
      StepForPair(r, selfId, events[0], id);
      PairsAreIndependent(Next(r, selfId, events[0]), selfId, events[1..], id);
      AfterAllAppend(r.slots[id], Dials(selfId, id), ForPair(events[0], id), AllForPair(events[1..], id));
    }
  }

  /** A pair that was just added, stays in the roster and never connects is rebuilt at most three times. */
  lemma {:induction false} NeverConnectedIsRebuiltAtMostThrice(r: Room, selfId: PeerId, events: seq<RoomEvent>, id: PeerId)
    requires id in r.slots && id != selfId && StaysListed(events, id)
    requires r.slots[id].attempts == 0 && Connections(AllForPair(events, id)) == 0
    ensures RebuiltInRoom(r, selfId, id, events) <= MAX_RECOVERY_ATTEMPTS
    ensures id in Run(r, selfId, events).slots
    ensures Dials(selfId, id) ==> Run(r, selfId, events).slots[id].attempts == RebuiltInRoom(r, selfId, id, events)
    ensures !Dials(selfId, id) ==> RebuiltInRoom(r, selfId, id, events) == 0
  {
    PairsAreIndependent(r, selfId, events, id);
    NeverConnectedCountsRebuilds(r.slots[id], Dials(selfId, id), AllForPair(events, id));
  }
}
