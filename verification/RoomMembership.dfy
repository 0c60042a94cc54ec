/** Who is in the room: the peers of the last roster, under their last names, in order of arrival. */
module RoomMembership {
  import opened P2PRoom
  import opened Sequences

  predicate ListedAt(roster: seq<Member>, i: int, id: PeerId) {
    0 <= i < |roster| && roster[i].id == id
  }

  ghost predicate IsListed(roster: seq<Member>, id: PeerId) {
    exists i :: ListedAt(roster, i, id)
  }

  /** `name` is the one under which the roster lists the peer last. */
  ghost predicate LastName(roster: seq<Member>, id: PeerId, name: string) {
    exists i :: ListedAt(roster, i, id) && roster[i].name == name && forall j :: i < j ==> !ListedAt(roster, j, id)
  }

  /** The peers that the roster lists and the room does not know yet, in order of their first listing. */
  function Newcomers(roster: seq<Member>, known: set<PeerId>): seq<PeerId> {
    if roster == [] then []
    else
      var n := |roster| - 1;
      var before := Newcomers(roster[..n], known);
      if roster[n].id in known || exists i :: 0 <= i < n && roster[i].id == roster[n].id then before
      else before + [roster[n].id]
  }

  lemma {:induction false} ListedMeans(roster: seq<Member>, id: PeerId)
    ensures id in Listed(roster) <==> IsListed(roster, id)
  {
    if id in Listed(roster) {
      var m :| m in roster && m.id == id;
      var i :| 0 <= i < |roster| && roster[i] == m;
      assert ListedAt(roster, i, id);
    }
    if i :| ListedAt(roster, i, id) { assert roster[i] in roster; }
  }

  lemma {:induction false} LastNameOfMore(roster: seq<Member>, id: PeerId, name: string)
    requires roster != [] && LastName(roster[..|roster| - 1], id, name) && roster[|roster| - 1].id != id
    ensures LastName(roster, id, name)
  {
    var front := roster[..|roster| - 1];
    var i :| ListedAt(front, i, id) && front[i].name == name && forall j :: i < j ==> !ListedAt(front, j, id);
    assert ListedAt(roster, i, id);
    forall j | i < j ensures !ListedAt(roster, j, id) {
      if j < |front| { assert !ListedAt(front, j, id); }
    }
  }

  lemma {:induction false} LastNameIsLast(roster: seq<Member>, id: PeerId)
    requires roster != [] && roster[|roster| - 1].id == id
    ensures LastName(roster, id, roster[|roster| - 1].name)
  {
    assert ListedAt(roster, |roster| - 1, id);
  }

  /** Joining a roster adds whom it lists, names them by it and leaves everything else. */
  lemma {:induction false} JoiningAdds(r: Room, selfId: PeerId, roster: seq<Member>, now: int, id: PeerId)
    ensures var joined := AllJoined(r, selfId, roster, now);
      && (id in joined.slots <==> id in r.slots || (id != selfId && IsListed(roster, id)))
      && (id in joined.slots && (id == selfId || !IsListed(roster, id)) ==> joined.slots[id] == r.slots[id])
      && (id != selfId && IsListed(roster, id) ==>
            && LastName(roster, id, joined.slots[id].name)
            && joined.slots[id].(name := "")
               == if id in r.slots then r.slots[id].(name := "") else Slot("", Fresh, Fresh, now, 0, false, false))
  {
    if roster != [] {
      var n := |roster| - 1;
      JoiningAdds(r, selfId, roster[..n], now, id);
      if roster[n].id == id {
        assert ListedAt(roster, n, id);
        LastNameIsLast(roster, id);
      } else {
        SameListings(roster, id);
        if id != selfId && IsListed(roster, id) {
          LastNameOfMore(roster, id, AllJoined(r, selfId, roster[..n], now).slots[id].name);
        }
      }
    }
  }

  lemma {:induction false} SameListings(roster: seq<Member>, id: PeerId)
    requires roster != [] && roster[|roster| - 1].id != id
    ensures IsListed(roster, id) <==> IsListed(roster[..|roster| - 1], id)
  {
    var front := roster[..|roster| - 1];
    if i :| ListedAt(roster, i, id) { assert ListedAt(front, i, id); }
    if i :| ListedAt(front, i, id) { assert ListedAt(roster, i, id); }
  }

  /**
   * After a roster the room holds exactly the peers it lists, never oneself. A known peer keeps everything but its name; a
   * new one has a connection of its own with no attempts behind it.
   */
  lemma {:induction false} RosterIsFollowed(r: Room, selfId: PeerId, roster: seq<Member>, now: int, id: PeerId)
    requires selfId !in r.slots
    ensures var next := Reconciled(r, selfId, roster, now);
      && (id in next.slots <==> id != selfId && IsListed(roster, id))
      && (id in next.slots ==>
            && LastName(roster, id, next.slots[id].name)
            && next.slots[id].(name := "")
               == if id in r.slots then r.slots[id].(name := "") else Slot("", Fresh, Fresh, now, 0, false, false))
  {
    ListedMeans(roster, id);
    JoiningAdds(r, selfId, roster, now, id);
  }

  // ---------------------------------------------------------------- in order of arrival

  lemma {:induction false} JoiningAppends(r: Room, selfId: PeerId, roster: seq<Member>, now: int)
    ensures AllJoined(r, selfId, roster, now).order == r.order + Newcomers(roster, r.slots.Keys + {selfId})
  {
    if roster != [] {
      var n := |roster| - 1;
      var id := roster[n].id;
      JoiningAppends(r, selfId, roster[..n], now);
      JoiningAdds(r, selfId, roster[..n], now, id);
      assert IsListed(roster[..n], id) <==> exists i :: 0 <= i < n && roster[i].id == id by { EarlierListing(roster, id); }
    }
  }

  lemma {:induction false} EarlierListing(roster: seq<Member>, id: PeerId)
    requires roster != []
    ensures IsListed(roster[..|roster| - 1], id) <==> exists i :: 0 <= i < |roster| - 1 && roster[i].id == id
  {
    var front := roster[..|roster| - 1];
    if IsListed(front, id) {
      var i :| ListedAt(front, i, id);
      assert roster[i].id == id;
    }
    if i :| 0 <= i < |roster| - 1 && roster[i].id == id { assert ListedAt(front, i, id); }
  }

  lemma {:induction false} NewcomersAreListed(roster: seq<Member>, known: set<PeerId>, id: PeerId)
    ensures id in Newcomers(roster, known) ==> id in Listed(roster)
  {
    if roster != [] {
      var n := |roster| - 1;
      NewcomersAreListed(roster[..n], known, id);
      assert roster[n] in roster && forall m :: m in roster[..n] ==> m in roster;
    }
  }

  lemma {:induction false} SiftedKeepsAll(a: seq<PeerId>, b: seq<PeerId>, marks: set<PeerId>)
    requires forall id :: id in b ==> id in marks
    ensures Sifted(a + b, marks, true) == Sifted(a, marks, true) + b
  {
    if b == [] {
      assert a + b == a;
    } else {
      var n := |b| - 1;
      SiftedKeepsAll(a, b[..n], marks);
      assert (a + b)[..|a + b| - 1] == a + b[..n] && b == b[..n] + [b[n]];
    }
  }

  /** The peers that stay keep their order, and the new ones follow in order of their first listing. */
  lemma {:induction false} RosterKeepsTheOrder(r: Room, selfId: PeerId, roster: seq<Member>, now: int)
    ensures Reconciled(r, selfId, roster, now).order
         == Sifted(r.order, Listed(roster), true) + Newcomers(roster, r.slots.Keys + {selfId})
  {
    var added := Newcomers(roster, r.slots.Keys + {selfId});
    JoiningAppends(r, selfId, roster, now);
    forall id | id in added ensures id in Listed(roster) { NewcomersAreListed(roster, r.slots.Keys + {selfId}, id); }
    SiftedKeepsAll(r.order, added, Listed(roster));
  }

  /** The peers that an event takes out of the order: those whose connection is made anew, and those no longer listed. */
  function Moved(r: Room, selfId: PeerId, e: RoomEvent): set<PeerId> {
    match e
    case Watch(now) => Rebuilding(r, selfId, now)
    case Roster(members, _) => set id | id in r.order && id !in Listed(members)
    case Happens(id, event) =>
      if id in r.slots && event.OfferAbsorbed? && !r.slots[id].recreatedForOffer then {id} else {}
  }

  lemma {:induction false} SiftedAlike(ids: seq<PeerId>, a: set<PeerId>, b: set<PeerId>)
    requires forall id :: id in ids ==> (id in a <==> id !in b)
    ensures Sifted(ids, a, true) == Sifted(ids, b, false)
  {
    if ids != [] {
      assert forall id :: id in ids[..|ids| - 1] ==> id in ids;
      SiftedAlike(ids[..|ids| - 1], a, b);
    }
  }

  lemma {:induction false} SiftedNone(ids: seq<PeerId>)
    ensures Sifted(ids, {}, false) == ids
  {
    if ids != [] {
      SiftedNone(ids[..|ids| - 1]);
      assert ids == ids[..|ids| - 1] + [ids[|ids| - 1]];
    }
  }

  lemma {:induction false} WithoutIsSifted(ids: seq<PeerId>, id: PeerId)
    requires Distinct(ids)
    ensures Without(ids, id) == Sifted(ids, {id}, false)
  {
    if ids != [] {
      var n := |ids| - 1;
      var front, last := ids[..n], ids[n];
      assert ids == front + [last];
      WithoutIsSifted(front, id);
      WithoutAppend(front, [last], id);
      if id !in front { WithoutAbsent(front, id); }
      if id == last { assert id !in front && Without([last], id) == []; } else { assert Without([last], id)[0] == last; }
    }
  }

  lemma {:induction false} NewcomersAreUnknown(roster: seq<Member>, known: set<PeerId>)
    ensures forall i :: 0 <= i < |Newcomers(roster, known)| ==> Newcomers(roster, known)[i] !in known
  {
    if roster != [] { NewcomersAreUnknown(roster[..|roster| - 1], known); }
  }

  /** `order` is the one of the room without the moved peers, followed by moved or new ones. */
  ghost predicate MovedGoLast(r: Room, moved: set<PeerId>, order: seq<PeerId>) {
    var kept := Sifted(r.order, moved, false);
    kept <= order && forall i :: |kept| <= i < |order| ==> order[i] in moved || order[i] !in r.slots
  }

  lemma {:induction false} BehindTheKept(r: Room, moved: set<PeerId>, added: seq<PeerId>)
    requires forall i :: 0 <= i < |added| ==> added[i] in moved || added[i] !in r.slots
    ensures MovedGoLast(r, moved, Sifted(r.order, moved, false) + added)
  {}

  lemma {:induction false} WatchedOrder(r: Room, selfId: PeerId, now: int)
    ensures MovedGoLast(r, Rebuilding(r, selfId, now), Watched(r, selfId, now).order)
  {
    var marks := Rebuilding(r, selfId, now);
    var last := Sifted(r.order, marks, true);
    forall j | 0 <= j < |last| ensures last[j] in marks { SiftedMembers(r.order, marks, true, last[j]); }
    BehindTheKept(r, marks, last);
  }

  lemma {:induction false} RosterOrder(r: Room, selfId: PeerId, members: seq<Member>, now: int)
    requires WellFormed(r)
    ensures MovedGoLast(r, Moved(r, selfId, Roster(members, now)), Reconciled(r, selfId, members, now).order)
  {
    var moved := Moved(r, selfId, Roster(members, now));
    RosterKeepsTheOrder(r, selfId, members, now);
    SiftedAlike(r.order, Listed(members), moved);
    NewcomersAreUnknown(members, r.slots.Keys + {selfId});
    BehindTheKept(r, moved, Newcomers(members, r.slots.Keys + {selfId}));
  }

  lemma {:induction false} HappenedOrder(r: Room, selfId: PeerId, id: PeerId, event: Event)
    requires WellFormed(r) && id in r.slots
    ensures MovedGoLast(r, Moved(r, selfId, Happens(id, event)), Happened(r, selfId, id, event).order)
  {
    if event.OfferAbsorbed? && !r.slots[id].recreatedForOffer {
      WithoutIsSifted(r.order, id);
      BehindTheKept(r, {id}, [id]);
    } else {
      SiftedNone(r.order);
    }
  }

  /** A connection made anew takes its place at the end; the others keep their order. */
  lemma {:induction false} NewConnectionsGoLast(r: Room, selfId: PeerId, e: RoomEvent)
    requires WellFormed(r)
    ensures MovedGoLast(r, Moved(r, selfId, e), Next(r, selfId, e).order)
  {
    match e
    case Watch(now) => WatchedOrder(r, selfId, now);
    case Roster(members, now) => RosterOrder(r, selfId, members, now);
    case Happens(id, event) =>
      if id in r.slots && OwnEvent(event) {
        HappenedOrder(r, selfId, id, event);
      } else {
        SiftedNone(r.order);
      }
  }

  // ---------------------------------------------------------------- over whole runs

  predicate NoRoster(events: seq<RoomEvent>) {
    forall i :: 0 <= i < |events| ==> !events[i].Roster?
  }

  lemma {:induction false} OnlyRostersCount(r: Room, selfId: PeerId, events: seq<RoomEvent>, id: PeerId)
    requires NoRoster(events)
    ensures id in Run(r, selfId, events).slots <==> id in r.slots
    decreases |events|
  {
    if events != [] { OnlyRostersCount(Next(r, selfId, events[0]), selfId, events[1..], id); }
  }

  /** Whatever happens in the room, a peer other than oneself is in it exactly when the last roster lists it. */
  lemma {:induction false} RoomFollowsTheLastRoster(r: Room, selfId: PeerId, events: seq<RoomEvent>, k: nat, id: PeerId)
    requires selfId !in r.slots && k < |events| && events[k].Roster? && NoRoster(events[k + 1..])
    ensures id in Run(r, selfId, events).slots <==> id != selfId && IsListed(events[k].members, id)
    decreases k
  {
    var next, rest := Next(r, selfId, events[0]), events[1..];
    if k == 0 {
      RosterIsFollowed(r, selfId, events[0].members, events[0].now, id);
      OnlyRostersCount(next, selfId, rest, id);
    } else {
      if events[0].Roster? { RosterIsFollowed(r, selfId, events[0].members, events[0].now, selfId); }
      assert rest[k - 1 + 1..] == events[k + 1..];
      RoomFollowsTheLastRoster(next, selfId, rest, k - 1, id);
    }
  }

  /** From the empty room on, nobody is in it before the first roster. */
  lemma {:induction false} RoomStartsEmpty(selfId: PeerId, events: seq<RoomEvent>, id: PeerId)
    requires NoRoster(events)
    ensures id !in Run(Room([], map[]), selfId, events).slots
  {
    OnlyRostersCount(Room([], map[]), selfId, events, id);
  }

  // ---------------------------------------------------------------- two rooms that hold each other

  /** When a pair has made no progress on either side, the peer with the greater id rebuilds it and the other one waits. */
  lemma {:induction false} GreaterPeerRebuilds(a: PeerId, b: PeerId, ofA: Room, ofB: Room, now: int)
    requires b.rank < a.rank && b in ofA.slots && a in ofB.slots
    requires forall s :: s in [ofA.slots[b], ofB.slots[a]] ==>
      !s.terminal && s.live == s.cached && s.live != Connected && s.attempts < 3 && now - s.lastProgressAt > 10_000
    ensures b in Rebuilding(ofA, a, now) && a !in Rebuilding(ofB, b, now)
    ensures Watched(ofA, a, now).slots[b].live == Fresh && Watched(ofB, b, now).slots[a].live == ofB.slots[a].live
  {
    var s, t := ofA.slots[b], ofB.slots[a];
    assert s in [s, t] && t in [s, t];
    OverduePairIsActedOn(s, true, [], now);
    OverduePairIsActedOn(t, false, [], now);
  }
}
