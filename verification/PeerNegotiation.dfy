/** Two peers agreeing on a session: offers, answers and the rollback of the polite side. */
module PeerNegotiation {

  /** The signalling state of a connection, with the offer it is about. */
  datatype Signaling = Stable | HaveLocalOffer(offer: nat) | HaveRemoteOffer(offer: nat)

  /** The descriptions a connection settled on last. */
  datatype Session = Unset | Session(offer: nat, answer: nat)

  datatype Signal = Offer(offer: nat) | Answer(offer: nat, answer: nat)

  /** One side of a pair; `posting` counts its offers whose POST has not returned. */
  datatype Peer = Peer(signaling: Signaling, session: Session, makingOffer: bool, posting: nat)

  const FRESH := Peer(Stable, Unset, false, 0)

  // ---------------------------------------------------------------- one side

  /** Renegotiation starts: the event fires only in the stable state. */
  function Offered(s: Peer, offer: nat): Peer {
    s.(signaling := HaveLocalOffer(offer), makingOffer := true, posting := s.posting + 1)
  }

  /** The POST of an offer returns. */
  function Posted(s: Peer): Peer
    requires 0 < s.posting
  {
    s.(makingOffer := false, posting := s.posting - 1)
  }

  predicate Ignores(s: Peer, polite: bool) {
    !polite && (s.makingOffer || s.signaling != Stable)
  }

  /** Taking a remote offer rolls back an own one. */
  function TookOffer(s: Peer, polite: bool, offer: nat): Peer {
    if Ignores(s, polite) then s else s.(signaling := HaveRemoteOffer(offer))
  }

  function Answered(s: Peer, answer: nat): Peer
    requires s.signaling.HaveRemoteOffer?
  {
    s.(signaling := Stable, session := Session(s.signaling.offer, answer))
  }

  /** An answer settles whatever offer is pending; without one it is an error that is swallowed. */
  function TookAnswer(s: Peer, answer: nat): Peer {
    if s.signaling.HaveLocalOffer? then s.(signaling := Stable, session := Session(s.signaling.offer, answer)) else s
  }

  function Received(s: Peer, polite: bool, signal: Signal): Peer {
    if signal.Offer? then TookOffer(s, polite, signal.offer) else TookAnswer(s, signal.answer)
  }

  class PeerSlot {
    const selfId: int
    const peerId: int
    var signaling: Signaling
    var session: Session
    var makingOffer: bool
    var ignoreOffer: bool
    var posting: nat
    /** Signals handed to the relay, in order. */
    var sent: seq<Signal>

    ghost function View(): Peer
      reads this
    {
      Peer(signaling, session, makingOffer, posting)
    }

    constructor (selfId: int, peerId: int)
      ensures View() == FRESH && sent == []
      ensures this.selfId == selfId && this.peerId == peerId
    {
      this.selfId, this.peerId := selfId, peerId;
      signaling, session := Stable, Unset;
      makingOffer, ignoreOffer, posting, sent := false, false, 0, [];
    }

    /** `onnegotiationneeded` up to the pending POST. */
    method NegotiationNeeded(offer: nat)
      requires signaling == Stable
      modifies this
      ensures View() == Offered(old(View()), offer) && sent == old(sent) + [Offer(offer)]
    {
      makingOffer := true;
      signaling := HaveLocalOffer(offer);
      posting, sent := posting + 1, sent + [Offer(offer)];
    }

    method OfferPosted()
      requires 0 < posting
      modifies this
      ensures View() == Posted(old(View())) && sent == old(sent)
    {
      posting := posting - 1;
      makingOffer := false;
    }

    /** `onSignal` up to the answer. */
    method OnSignal(signal: Signal)
      modifies this
      ensures View() == Received(old(View()), selfId < peerId, signal) && sent == old(sent)
      ensures ignoreOffer <==> signal.Offer? && Ignores(old(View()), selfId < peerId)
    {
      var polite := selfId < peerId;
      var collision := signal.Offer? && (makingOffer || signaling != Stable);
      ignoreOffer := !polite && collision;
      if ignoreOffer { return; }
      match signal
      case Offer(offer) =>
        signaling := HaveRemoteOffer(offer);
      case Answer(_, answer) =>
        if signaling.HaveLocalOffer? {
          session := Session(signaling.offer, answer);
          signaling := Stable;
        }
    }

    /** The rest of `onSignal` for an offer that was taken. */
    method SendAnswer(answer: nat)
      requires signaling.HaveRemoteOffer?
      modifies this
      ensures View() == Answered(old(View()), answer)
      ensures sent == old(sent) + [Answer(old(signaling).offer, answer)]
    {
      sent := sent + [Answer(signaling.offer, answer)];
      session := Session(signaling.offer, answer);
      signaling := Stable;
    }
  }

  // ---------------------------------------------------------------- the pair

  /** Both sides and the signals on their way; `next` numbers offers and answers. */
  datatype Link = Link(polite: Peer, impolite: Peer, toPolite: seq<Signal>, toImpolite: seq<Signal>, next: nat)

  const UNCONNECTED := Link(FRESH, FRESH, [], [], 0)

  datatype Step =
    | PoliteOffers | ImpoliteOffers
    | PolitePosted | ImpolitePosted
    | PoliteReceives | ImpoliteReceives
    | PoliteAnswers | ImpoliteAnswers
    | PoliteAbsorbs | ImpoliteAbsorbs
    | ImpoliteRebuilds

  /** Signals of one sender are handled one at a time, so none is taken while an answer is being made. A connection that
      refuses an offer is replaced by one that takes it, and the watchdog of the dialer, which is the impolite side, may
      replace its connection at any time. */
  predicate Enabled(l: Link, step: Step) {
    match step
    case PoliteOffers => l.polite.signaling == Stable
    case ImpoliteOffers => l.impolite.signaling == Stable
    case PolitePosted => 0 < l.polite.posting
    case ImpolitePosted => 0 < l.impolite.posting
    case PoliteReceives => l.toPolite != [] && !l.polite.signaling.HaveRemoteOffer?
    case ImpoliteReceives => l.toImpolite != [] && !l.impolite.signaling.HaveRemoteOffer?
    case PoliteAnswers => l.polite.signaling.HaveRemoteOffer?
    case ImpoliteAnswers => l.impolite.signaling.HaveRemoteOffer?
    case PoliteAbsorbs => l.toPolite != [] && !l.polite.signaling.HaveRemoteOffer? && l.toPolite[0].Offer?
    case ImpoliteAbsorbs =>
      l.toImpolite != [] && !l.impolite.signaling.HaveRemoteOffer? && l.toImpolite[0].Offer? && !Ignores(l.impolite, false)
    case ImpoliteRebuilds => true
  }

  function Next(l: Link, step: Step): Link
    requires Enabled(l, step)
  {
    match step
    case PoliteOffers =>
      l.(polite := Offered(l.polite, l.next), toImpolite := l.toImpolite + [Offer(l.next)], next := l.next + 1)
    case ImpoliteOffers =>
      l.(impolite := Offered(l.impolite, l.next), toPolite := l.toPolite + [Offer(l.next)], next := l.next + 1)
    case PolitePosted => l.(polite := Posted(l.polite))
    case ImpolitePosted => l.(impolite := Posted(l.impolite))
    case PoliteReceives =>
      l.(polite := Received(l.polite, true, l.toPolite[0]), toPolite := l.toPolite[1..])
    case ImpoliteReceives =>
      l.(impolite := Received(l.impolite, false, l.toImpolite[0]), toImpolite := l.toImpolite[1..])
    case PoliteAnswers =>
      l.(polite := Answered(l.polite, l.next),
         toImpolite := l.toImpolite + [Answer(l.polite.signaling.offer, l.next)], next := l.next + 1)
    case ImpoliteAnswers =>
      l.(impolite := Answered(l.impolite, l.next),
         toPolite := l.toPolite + [Answer(l.impolite.signaling.offer, l.next)], next := l.next + 1)
    case PoliteAbsorbs =>
      l.(polite := TookOffer(FRESH, true, l.toPolite[0].offer), toPolite := l.toPolite[1..])
    case ImpoliteAbsorbs =>
      l.(impolite := TookOffer(FRESH, false, l.toImpolite[0].offer), toImpolite := l.toImpolite[1..])
    case ImpoliteRebuilds =>
      l.(impolite := Offered(FRESH, l.next), toPolite := l.toPolite + [Offer(l.next)], next := l.next + 1)
  }

  ghost predicate Possible(l: Link, steps: seq<Step>)
    decreases |steps|
  {
    steps == [] || (Enabled(l, steps[0]) && Possible(Next(l, steps[0]), steps[1..]))
  }

  function Run(l: Link, steps: seq<Step>): Link
    requires Possible(l, steps)
    decreases |steps|
  {
    if steps == [] then l else Run(Next(l, steps[0]), steps[1..])
  }

  // ---------------------------------------------------------------- what can be under way

  /** `rest`, possibly after an offer that lost a glare. */
  predicate MaybeStale(signals: seq<Signal>, rest: seq<Signal>) {
    signals == rest || (signals != [] && signals[0].Offer? && signals[1..] == rest)
  }

  predicate AtRest(l: Link) {
    l.polite.signaling == Stable && l.impolite.signaling == Stable && l.toPolite == [] && l.toImpolite == []
    && l.polite.session == l.impolite.session
  }

  /** The polite side waits for an answer that nobody will send. */
  predicate Stranded(l: Link) {
    l.polite.signaling.HaveLocalOffer? && l.impolite.signaling == Stable && l.toPolite == [] && l.toImpolite == []
  }

  predicate PoliteOfferUnderWay(l: Link) {
    var p, i := l.polite.signaling, l.impolite.signaling;
    p.HaveLocalOffer?
    && ((i == Stable && l.toPolite == [] && l.toImpolite == [Offer(p.offer)])
        || (i == HaveRemoteOffer(p.offer) && l.toPolite == [] && l.toImpolite == [])
        || (i == Stable && l.toImpolite == [] && l.impolite.session.Session? && l.impolite.session.offer == p.offer
            && l.toPolite == [Answer(p.offer, l.impolite.session.answer)])
        || (i.HaveLocalOffer? && l.toImpolite == [] && l.toPolite != [] && l.toPolite[0].Answer?
            && l.toPolite[0].offer == p.offer && l.toPolite[1..] == [Offer(i.offer)]))
  }

  predicate ImpoliteOfferUnderWay(l: Link) {
    var p, i := l.polite.signaling, l.impolite.signaling;
    i.HaveLocalOffer?
    && ((p == Stable && l.toPolite == [Offer(i.offer)] && l.toImpolite == [])
        || (p.HaveLocalOffer? && l.toPolite == [Offer(i.offer)] && MaybeStale(l.toImpolite, []))
        || (p == HaveRemoteOffer(i.offer) && l.toPolite == [] && MaybeStale(l.toImpolite, []))
        || (l.polite.session.Session? && l.polite.session.offer == i.offer && l.toPolite == []
            && var answer := Answer(i.offer, l.polite.session.answer);
               ((p == Stable && MaybeStale(l.toImpolite, [answer]))
                || (p.HaveLocalOffer? && MaybeStale(l.toImpolite, [answer, Offer(p.offer)])))))
  }

  /** All joint states a pair can be in. */
  predicate Consistent(l: Link) {
    AtRest(l) || Stranded(l) || PoliteOfferUnderWay(l) || ImpoliteOfferUnderWay(l)
  }

  /** The impolite side drops an offer although nothing collides: the POST of its last offer, long answered, has not returned. */
  predicate DropsLate(l: Link, step: Step) {
    step.ImpoliteReceives? && l.toImpolite != [] && l.toImpolite[0].Offer?
    && l.impolite.signaling == Stable && l.impolite.makingOffer
  }

  /** The connection is replaced although its offer is still pending. */
  predicate RebuildsPending(l: Link, step: Step) {
    step.ImpoliteRebuilds? && l.impolite.signaling.HaveLocalOffer?
  }

  lemma {:induction false} StepKeepsConsistent(l: Link, step: Step)
    requires Consistent(l) && Enabled(l, step) && !RebuildsPending(l, step)
    ensures Consistent(Next(l, step))
    ensures !Stranded(l) ==> (Stranded(Next(l, step)) <==> DropsLate(l, step))
  {}

  // ---------------------------------------------------------------- whole runs

  ghost predicate NeverRebuildsPending(l: Link, steps: seq<Step>)
    requires Possible(l, steps)
    decreases |steps|
  {
    steps == [] || (!RebuildsPending(l, steps[0]) && NeverRebuildsPending(Next(l, steps[0]), steps[1..]))
  }

  lemma {:induction false} RunsStayConsistent(l: Link, steps: seq<Step>)
    requires Consistent(l) && Possible(l, steps) && NeverRebuildsPending(l, steps)
    ensures Consistent(Run(l, steps))
    decreases |steps|
  {
    if steps != [] {
      StepKeepsConsistent(l, steps[0]);
      RunsStayConsistent(Next(l, steps[0]), steps[1..]);
    }
  }

  /** No signal is on its way and no answer is being made. */
  predicate Quiet(l: Link) {
    l.toPolite == [] && l.toImpolite == []
    && !l.polite.signaling.HaveRemoteOffer? && !l.impolite.signaling.HaveRemoteOffer?
  }

  /** When a run falls quiet the impolite side is stable, and unless the polite side still has its own offer pending both
      are stable on the same offer and answer. */
  lemma {:induction false} QuietPairsAgree(steps: seq<Step>)
    requires Possible(UNCONNECTED, steps) && NeverRebuildsPending(UNCONNECTED, steps) && Quiet(Run(UNCONNECTED, steps))
    ensures var l := Run(UNCONNECTED, steps);
      && l.impolite.signaling == Stable
      && (AtRest(l) <==> !l.polite.signaling.HaveLocalOffer?)
      && (Stranded(l) <==> l.polite.signaling.HaveLocalOffer?)
  {
    RunsStayConsistent(UNCONNECTED, steps);
  }

  ghost predicate ConvergesThroughout(l: Link, steps: seq<Step>)
    requires Possible(l, steps)
    decreases |steps|
  {
    (Quiet(l) ==> AtRest(l)) && (steps == [] || ConvergesThroughout(Next(l, steps[0]), steps[1..]))
  }

  ghost predicate NeverDropsLate(l: Link, steps: seq<Step>)
    requires Possible(l, steps)
    decreases |steps|
  {
    steps == [] || (!DropsLate(l, steps[0]) && NeverDropsLate(Next(l, steps[0]), steps[1..]))
  }

  /** Through any glare and any rebuild without an offer pending: a run converges whenever it falls quiet, exactly when no
      offer meets a stable impolite side that still waits for the POST of its last offer. */
  lemma {:induction false} QuietMomentsAgreeIff(l: Link, steps: seq<Step>)
    requires Consistent(l) && !Stranded(l) && Possible(l, steps) && NeverRebuildsPending(l, steps)
    ensures ConvergesThroughout(l, steps) <==> NeverDropsLate(l, steps)
    decreases |steps|
  {
    if steps != [] {
      StepKeepsConsistent(l, steps[0]);
      if !Stranded(Next(l, steps[0])) {
        QuietMomentsAgreeIff(Next(l, steps[0]), steps[1..]);
      } else {
        assert !ConvergesThroughout(Next(l, steps[0]), steps[1..]);
      }
    }
  }

  /** One run that ends with the polite side waiting for good. */
  lemma {:induction false} LatePostStrandsThePair()
    ensures var steps := [ImpoliteOffers, PoliteReceives, PoliteAnswers, ImpoliteReceives, PoliteOffers, ImpoliteReceives];
      Possible(UNCONNECTED, steps) && Quiet(Run(UNCONNECTED, steps)) && !AtRest(Run(UNCONNECTED, steps))
  {
    var l1 := Next(UNCONNECTED, ImpoliteOffers);
    var l2 := Next(l1, PoliteReceives);
    var l3 := Next(l2, PoliteAnswers);
    var l4 := Next(l3, ImpoliteReceives);
    var l5 := Next(l4, PoliteOffers);
    var l6 := Next(l5, ImpoliteReceives);
    assert l3.toImpolite == [Answer(0, 1)] && l5.toImpolite == [Offer(2)];
  }

  // ---------------------------------------------------------------- an exchange ends

  function Weight(signals: seq<Signal>): nat {
    if signals == [] then 0 else (if signals[0].Offer? then 3 else 1) + Weight(signals[1..])
  }

  /** What is left to do without new offers. */
  function Work(l: Link): nat {
    Weight(l.toPolite) + Weight(l.toImpolite)
    + (if l.polite.signaling.HaveRemoteOffer? then 2 else 0) + (if l.impolite.signaling.HaveRemoteOffer? then 2 else 0)
  }

  predicate Drains(step: Step) {
    || step.PoliteReceives? || step.ImpoliteReceives? || step.PoliteAbsorbs? || step.ImpoliteAbsorbs?
    || step.PoliteAnswers? || step.ImpoliteAnswers?
  }

  predicate MakesOffer(step: Step) {
    step.PoliteOffers? || step.ImpoliteOffers? || step.ImpoliteRebuilds?
  }

  lemma {:induction false} WeightOfMore(signals: seq<Signal>, signal: Signal)
    ensures Weight(signals + [signal]) == Weight(signals) + (if signal.Offer? then 3 else 1)
  {
    if signals != [] {
      assert (signals + [signal])[1..] == signals[1..] + [signal];
      WeightOfMore(signals[1..], signal);
    }
  }

  /** Handling signals and answering comes to an end, a posted offer changes nothing, and a pair that is not quiet can go on. */
  lemma {:induction false} ExchangeEnds(l: Link, step: Step)
    requires Enabled(l, step)
    ensures Drains(step) ==> Work(Next(l, step)) < Work(l)
    ensures !Drains(step) && !MakesOffer(step) ==> Work(Next(l, step)) == Work(l)
    ensures Work(l) == 0 <==> Quiet(l)
    ensures !Quiet(l) ==> exists drain :: Drains(drain) && Enabled(l, drain)
  {
    if step.PoliteAnswers? {
      WeightOfMore(l.toImpolite, Answer(l.polite.signaling.offer, l.next));
    } else if step.ImpoliteAnswers? {
      WeightOfMore(l.toPolite, Answer(l.impolite.signaling.offer, l.next));
    }
    assert Enabled(l, PoliteReceives) || Enabled(l, ImpoliteReceives) || Enabled(l, PoliteAnswers)
           || Enabled(l, ImpoliteAnswers) || Quiet(l);
  }

  /** A run that makes no new offer. */
  predicate OffersNothing(steps: seq<Step>) {
    steps == [] || (!MakesOffer(steps[0]) && OffersNothing(steps[1..]))
  }

  /** The offer of the impolite side is on the way to being accepted. */
  predicate HeadingFor(l: Link, offer: nat) {
    || (AtRest(l) && l.polite.session.Session? && l.polite.session.offer == offer)
    || (l.impolite.signaling == HaveLocalOffer(offer) && ImpoliteOfferUnderWay(l)
        && (l.polite.signaling.HaveLocalOffer? ==> l.toPolite == [Offer(offer)]))
  }

  /** A glare is settled by the impolite offer: whatever comes first, when both sides fall quiet they have agreed on it. */
  lemma {:induction false} GlareGoesToTheImpolite(l: Link, steps: seq<Step>, offer: nat)
    requires HeadingFor(l, offer) && Possible(l, steps) && OffersNothing(steps) && Quiet(Run(l, steps))
    ensures var last := Run(l, steps);
      AtRest(last) && last.polite.session.Session? && last.polite.session.offer == offer
    decreases |steps|
  {
    if steps != [] {
      GlareGoesToTheImpolite(Next(l, steps[0]), steps[1..], offer);
    }
  }

  /** A glare, and a stranded pair as soon as the impolite side offers again, are such situations. */
  lemma {:induction false} ImpoliteOfferPrevails(l: Link)
    requires Consistent(l)
    ensures l.impolite.signaling.HaveLocalOffer? && l.polite.signaling.HaveLocalOffer? && l.toPolite == [Offer(l.impolite.signaling.offer)]
            ==> HeadingFor(l, l.impolite.signaling.offer)
    ensures Stranded(l) ==> HeadingFor(Next(l, ImpoliteOffers), l.next)
  {
    assert [] + [Offer(l.next)] == [Offer(l.next)];
  }
}
