/** When two peers end up with one session: what a late POST and a replaced connection can spoil. */
module PeerConvergence {
  import opened PeerNegotiation

  // ---------------------------------------------------------------- numbers are fresh

  predicate SignalBelow(s: Signal, n: nat) {
    s.offer < n && (s.Answer? ==> s.answer < n)
  }

  predicate PeerBelow(p: Peer, n: nat) {
    (p.signaling != Stable ==> p.signaling.offer < n)
    && (p.session.Session? ==> p.session.offer < n && p.session.answer < n)
  }

  /** Every number in use has been handed out. */
  predicate Numbered(l: Link) {
    && PeerBelow(l.polite, l.next) && PeerBelow(l.impolite, l.next)
    && (forall s :: s in l.toPolite ==> SignalBelow(s, l.next))
    && (forall s :: s in l.toImpolite ==> SignalBelow(s, l.next))
  }

  lemma {:induction false} StepKeepsNumbered(l: Link, step: Step)
    requires Numbered(l) && Enabled(l, step)
    ensures Numbered(Next(l, step))
  {
    if step.PoliteReceives? || step.PoliteAbsorbs? { assert l.toPolite[0] in l.toPolite; }
    if step.ImpoliteReceives? || step.ImpoliteAbsorbs? { assert l.toImpolite[0] in l.toImpolite; }
  }

  // ---------------------------------------------------------------- a rebuild with an offer pending

  predicate OnlyOffers(signals: seq<Signal>) {
    signals == [] || (|signals| == 1 && signals[0].Offer?)
  }

  predicate OnlyAnswers(signals: seq<Signal>) {
    forall s :: s in signals ==> s.Answer?
  }

  /** Where the first answer stands, behind at most one offer. */
  function First(signals: seq<Signal>): nat {
    if signals != [] && signals[0].Offer? then 1 else 0
  }

  /** The polite side has yet to answer the replaced offer, which is ahead of offer `j` of the new connection. */
  predicate OldOfferAhead(l: Link, j: nat) {
    var p := l.polite.signaling;
    && OnlyOffers(l.toImpolite)
    && ((p.HaveRemoteOffer? && p.offer != j && l.toPolite == [Offer(j)])
        || (!p.HaveRemoteOffer? && |l.toPolite| == 2 && l.toPolite[0].Offer? && l.toPolite[0].offer != j && l.toPolite[1] == Offer(j))
        || (p.HaveLocalOffer? && |l.toPolite| == 3 && l.toPolite[0].Answer?
            && l.toPolite[1].Offer? && l.toPolite[1].offer != j && l.toPolite[2] == Offer(j)))
  }

  /** The polite side has answered the replaced offer, and `x` is not the number its answer to offer `j` has or will have. */
  predicate NewOfferAhead(l: Link, j: nat, x: nat) {
    var p := l.polite.signaling;
    || (!p.HaveRemoteOffer? && l.toPolite != [] && l.toPolite[0] == Offer(j) && OnlyAnswers(l.toPolite[1..]))
    || (p == HaveRemoteOffer(j) && OnlyAnswers(l.toPolite))
    || (p == Stable && l.polite.session.Session? && l.polite.session.answer != x && OnlyAnswers(l.toPolite))
  }

  /** Offer `j` of the new connection is pending, and an answer to another offer comes first. */
  predicate WrongAnswerComes(l: Link, j: nat) {
    && l.impolite.signaling == HaveLocalOffer(j)
    && Offer(j) !in l.toImpolite
    && (OldOfferAhead(l, j)
        || (var k := First(l.toImpolite);
            k < |l.toImpolite| && l.toImpolite[k].Answer? && l.toImpolite[k].offer != j
            && NewOfferAhead(l, j, l.toImpolite[k].answer)))
  }

  /** The new connection has settled on something else than the polite side has or will have. */
  predicate WronglySettled(l: Link, j: nat) {
    && !l.impolite.signaling.HaveLocalOffer? && l.impolite.signaling != HaveRemoteOffer(j)
    && Offer(j) !in l.toImpolite
    && (l.impolite.session.Unset? ==> l.impolite.signaling.HaveRemoteOffer?)
    && NewOfferAhead(l, j, if l.impolite.session.Session? then l.impolite.session.answer else l.next)
  }

  lemma {:induction false} RebuildingIsWrong(l: Link)
    requires Consistent(l) && Numbered(l) && l.impolite.signaling.HaveLocalOffer?
    ensures WrongAnswerComes(Next(l, ImpoliteRebuilds), l.next)
  {
  }

  /** Until the wrong answer is taken it keeps coming; once it is taken the sides stay apart. */
  lemma {:induction false} WrongStep(l: Link, step: Step, j: nat)
    requires Numbered(l) && Enabled(l, step) && !MakesOffer(step)
    requires WrongAnswerComes(l, j) || WronglySettled(l, j)
    ensures WrongAnswerComes(Next(l, step), j) || WronglySettled(Next(l, step), j)
  {
    match step
    case PoliteOffers =>
    case ImpoliteOffers =>
    case ImpoliteRebuilds =>
    case PolitePosted =>
    case ImpolitePosted =>
    case PoliteReceives =>
      assert l.toPolite[0] in l.toPolite;
      if |l.toPolite| == 2 { assert l.toPolite[1..] == [l.toPolite[1]]; }
    case PoliteAbsorbs =>
      assert l.toPolite[0] in l.toPolite;
      if |l.toPolite| == 2 { assert l.toPolite[1..] == [l.toPolite[1]]; }
    case ImpoliteReceives =>
    case ImpoliteAbsorbs =>
    case PoliteAnswers =>
      var k := First(l.toImpolite);
      assert First(Next(l, step).toImpolite) == k;
      if k < |l.toImpolite| { assert l.toImpolite[k] in l.toImpolite; }
    case ImpoliteAnswers =>
  }

  lemma {:induction false} WrongToTheEnd(l: Link, steps: seq<Step>, j: nat)
    requires Numbered(l) && Possible(l, steps) && OffersNothing(steps)
    requires WrongAnswerComes(l, j) || WronglySettled(l, j)
    ensures WrongAnswerComes(Run(l, steps), j) || WronglySettled(Run(l, steps), j)
    decreases |steps|
  {
    if steps != [] {
      StepKeepsNumbered(l, steps[0]);
      WrongStep(l, steps[0], j);
      WrongToTheEnd(Next(l, steps[0]), steps[1..], j);
    }
  }

  lemma {:induction false} WrongPairsDiffer(l: Link, j: nat)
    requires WrongAnswerComes(l, j) || WronglySettled(l, j)
    requires Quiet(l)
    ensures Apart(l)
  {}

  /** Both sides take themselves for settled, on different sessions. */
  predicate Apart(l: Link) {
    && l.polite.signaling == Stable && l.impolite.signaling == Stable
    && l.polite.session.Session? && l.impolite.session.Session? && l.polite.session != l.impolite.session
  }

  /** Once a connection is replaced with its offer pending, the sides settle on different sessions, whatever comes first. */
  lemma {:induction false} PendingRebuildSplits(l: Link, steps: seq<Step>)
    requires Consistent(l) && Numbered(l) && l.impolite.signaling.HaveLocalOffer?
    requires var m := Next(l, ImpoliteRebuilds); Possible(m, steps) && OffersNothing(steps) && Quiet(Run(m, steps))
    ensures Apart(Run(Next(l, ImpoliteRebuilds), steps))
  {
    RebuildingIsWrong(l);
    StepKeepsNumbered(l, ImpoliteRebuilds);
    WrongToTheEnd(Next(l, ImpoliteRebuilds), steps, l.next);
    WrongPairsDiffer(Run(Next(l, ImpoliteRebuilds), steps), l.next);
  }

  /** Whatever is under way can be handled to the end, without a late drop once the POST of the offer is back. */
  lemma {:induction false} DrainsToQuiet(l: Link) returns (steps: seq<Step>)
    requires !l.impolite.makingOffer
    ensures Possible(l, steps) && OffersNothing(steps) && NeverDropsLate(l, steps) && Quiet(Run(l, steps))
    decreases Work(l)
  {
    steps := [];
    if !Quiet(l) {
      ExchangeEnds(l, ImpoliteRebuilds);
      var drain :| Drains(drain) && Enabled(l, drain);
      ExchangeEnds(l, drain);
      var rest := DrainsToQuiet(Next(l, drain));
      steps := [drain] + rest;
      assert steps[1..] == rest;
    }
  }

  /** Handling what is under way ends in agreement, whatever comes first, unless an offer is dropped late on the way. */
  ghost predicate HeadsForAgreement(l: Link) {
    forall steps | Possible(l, steps) && OffersNothing(steps) && NeverDropsLate(l, steps) && Quiet(Run(l, steps)) ::
      AtRest(Run(l, steps))
  }

  ghost predicate AlwaysHeadsForAgreement(l: Link, steps: seq<Step>)
    requires Possible(l, steps)
    decreases |steps|
  {
    HeadsForAgreement(l) && (steps == [] || AlwaysHeadsForAgreement(Next(l, steps[0]), steps[1..]))
  }

  lemma {:induction false} NoOfferNoRebuild(l: Link, steps: seq<Step>)
    requires Possible(l, steps) && OffersNothing(steps)
    ensures NeverRebuildsPending(l, steps)
    decreases |steps|
  {
    if steps != [] { NoOfferNoRebuild(Next(l, steps[0]), steps[1..]); }
  }

  lemma {:induction false} NeverStranded(l: Link, steps: seq<Step>)
    requires Consistent(l) && !Stranded(l) && Possible(l, steps)
    requires NeverDropsLate(l, steps) && NeverRebuildsPending(l, steps)
    ensures Consistent(Run(l, steps)) && !Stranded(Run(l, steps))
    decreases |steps|
  {
    if steps != [] {
      StepKeepsConsistent(l, steps[0]);
      NeverStranded(Next(l, steps[0]), steps[1..]);
    }
  }

  lemma {:induction false} ConsistentPairsHeadForAgreement(l: Link)
    requires Consistent(l) && !Stranded(l)
    ensures HeadsForAgreement(l)
  {
    forall steps | Possible(l, steps) && OffersNothing(steps) && NeverDropsLate(l, steps) && Quiet(Run(l, steps))
      ensures AtRest(Run(l, steps))
    {
      NoOfferNoRebuild(l, steps);
      NeverStranded(l, steps);
    }
  }

  lemma {:induction false} StrandedPairsDoNot(l: Link)
    requires Stranded(l)
    ensures !HeadsForAgreement(l)
  {
    var steps: seq<Step> := [];
    assert Possible(l, steps) && Quiet(Run(l, steps));
  }

  lemma {:induction false} SplitPairsDoNot(l: Link)
    requires Consistent(l) && Numbered(l) && l.impolite.signaling.HaveLocalOffer?
    ensures !HeadsForAgreement(Next(l, ImpoliteRebuilds))
  {
    var m := Next(l, ImpoliteRebuilds);
    var posted := Next(m, ImpolitePosted);
    var rest := DrainsToQuiet(posted);
    var steps := [ImpolitePosted] + rest;
    assert steps[1..] == rest;
    assert Run(m, steps) == Run(posted, rest);
    PendingRebuildSplits(l, steps);
  }

  /** Through any glare and any rebuild: at every moment of a run what is under way leads to one session, exactly when no
      offer is dropped late and no connection is replaced with its offer pending. */
  lemma {:induction false} ConvergesIff(l: Link, steps: seq<Step>)
    requires Consistent(l) && !Stranded(l) && Numbered(l) && Possible(l, steps)
    ensures AlwaysHeadsForAgreement(l, steps) <==> NeverDropsLate(l, steps) && NeverRebuildsPending(l, steps)
    decreases |steps|
  {
    ConsistentPairsHeadForAgreement(l);
    if steps != [] {
      var m := Next(l, steps[0]);
      if RebuildsPending(l, steps[0]) {
        SplitPairsDoNot(l);
      } else {
        StepKeepsConsistent(l, steps[0]);
        StepKeepsNumbered(l, steps[0]);
        if Stranded(m) { StrandedPairsDoNot(m); } else { ConvergesIff(m, steps[1..]); }
      }
    }
  }

  /** Every answer that is about to be handled meets a side that still has the very offer it answers. */
  predicate AnswersFit(l: Link) {
    && (l.toPolite != [] && l.toPolite[0].Answer? ==> l.polite.signaling == HaveLocalOffer(l.toPolite[0].offer))
    && (l.toImpolite != [] && l.toImpolite[0].Answer? ==> l.impolite.signaling == HaveLocalOffer(l.toImpolite[0].offer))
  }

  ghost predicate AnswersWillFit(l: Link) {
    forall steps | Possible(l, steps) && OffersNothing(steps) :: AnswersFit(Run(l, steps))
  }

  ghost predicate AnswersAlwaysFit(l: Link, steps: seq<Step>)
    requires Possible(l, steps)
    decreases |steps|
  {
    AnswersWillFit(l) && (steps == [] || AnswersAlwaysFit(Next(l, steps[0]), steps[1..]))
  }

  lemma {:induction false} WrongAnswerArrives(l: Link, j: nat) returns (steps: seq<Step>)
    requires Numbered(l) && WrongAnswerComes(l, j)
    ensures Possible(l, steps) && OffersNothing(steps) && !AnswersFit(Run(l, steps))
    decreases Work(l)
  {
    steps := [];
    if l.toImpolite == [] || l.toImpolite[0].Offer? {
      var step := if l.toImpolite != [] then ImpoliteReceives else if l.polite.signaling.HaveRemoteOffer? then PoliteAnswers
                  else PoliteReceives;
      StepKeepsNumbered(l, step);
      WrongStep(l, step, j);
      ExchangeEnds(l, step);
      var rest := WrongAnswerArrives(Next(l, step), j);
      steps := [step] + rest;
      assert steps[1..] == rest;
    }
  }

  lemma {:induction false} ConsistentAnswersWillFit(l: Link)
    requires Consistent(l)
    ensures AnswersWillFit(l)
  {
    forall steps | Possible(l, steps) && OffersNothing(steps)
      ensures AnswersFit(Run(l, steps))
    {
      NoOfferNoRebuild(l, steps);
      RunsStayConsistent(l, steps);
    }
  }

  /** Answers find their offers at every moment and in every continuation, exactly when no connection is replaced with its
      offer pending. */
  lemma {:induction false} AnswersFindTheirOfferIff(l: Link, steps: seq<Step>)
    requires Consistent(l) && Numbered(l) && Possible(l, steps)
    ensures AnswersAlwaysFit(l, steps) <==> NeverRebuildsPending(l, steps)
    decreases |steps|
  {
    ConsistentAnswersWillFit(l);
    if steps != [] {
      StepKeepsNumbered(l, steps[0]);
      if RebuildsPending(l, steps[0]) {
        RebuildingIsWrong(l);
        var wrong := WrongAnswerArrives(Next(l, steps[0]), l.next);
      } else {
        StepKeepsConsistent(l, steps[0]);
        AnswersFindTheirOfferIff(Next(l, steps[0]), steps[1..]);
      }
    }
  }

  /** One run that ends apart: the connection of the dialer is replaced while the answer to its offer is on the way. */
  lemma {:induction false} PendingRebuildRun()
    ensures var steps := [ImpoliteOffers, PoliteReceives, PoliteAnswers, ImpoliteRebuilds, ImpoliteReceives, PoliteReceives,
                          PoliteAnswers, ImpoliteReceives];
      && Possible(UNCONNECTED, steps) && NeverDropsLate(UNCONNECTED, steps)
      && Quiet(Run(UNCONNECTED, steps)) && Apart(Run(UNCONNECTED, steps))
  {
    var l1 := Next(UNCONNECTED, ImpoliteOffers);
    var l2 := Next(l1, PoliteReceives);
    var l3 := Next(l2, PoliteAnswers);
    var l4 := Next(l3, ImpoliteRebuilds);
    var l5 := Next(l4, ImpoliteReceives);
    var l6 := Next(l5, PoliteReceives);
    var l7 := Next(l6, PoliteAnswers);
    var l8 := Next(l7, ImpoliteReceives);
    assert l4.toImpolite == [Answer(0, 1)] && l4.toPolite == [Offer(2)];
    assert l7.toImpolite == [Answer(2, 3)] && l8.toImpolite == [];
  }

  // ---------------------------------------------------------------- the flag that causes the late drop

  function Times(steps: seq<Step>, step: Step): nat {
    if steps == [] then 0 else (if steps[0] == step then 1 else 0) + Times(steps[1..], step)
  }

  /** Whether the last of two kinds of step in the run was the first kind; without any of them it is as before. */
  function LastWas(steps: seq<Step>, first: Step, second: Step, before: bool): bool {
    if steps == [] then before
    else LastWas(steps[1..], first, second, if steps[0] == first then true else if steps[0] == second then false else before)
  }

  lemma {:induction false} PolitePosts(l: Link, steps: seq<Step>)
    requires Possible(l, steps) && Times(steps, PoliteAbsorbs) == 0
    ensures var p := Run(l, steps).polite;
      && p.posting + Times(steps, PolitePosted) == l.polite.posting + Times(steps, PoliteOffers)
      && p.makingOffer == LastWas(steps, PoliteOffers, PolitePosted, l.polite.makingOffer)
    decreases |steps|
  {
    if steps != [] { PolitePosts(Next(l, steps[0]), steps[1..]); }
  }

  lemma {:induction false} ImpolitePosts(l: Link, steps: seq<Step>)
    requires Possible(l, steps) && Times(steps, ImpoliteAbsorbs) == 0 && Times(steps, ImpoliteRebuilds) == 0
    ensures var i := Run(l, steps).impolite;
      && i.posting + Times(steps, ImpolitePosted) == l.impolite.posting + Times(steps, ImpoliteOffers)
      && i.makingOffer == LastWas(steps, ImpoliteOffers, ImpolitePosted, l.impolite.makingOffer)
    decreases |steps|
  {
    if steps != [] { ImpolitePosts(Next(l, steps[0]), steps[1..]); }
  }

  /** While the sides keep their connections, each has as many POSTs on the way as offers made and not returned, and takes
      itself to be making an offer exactly when the last of its offers and returns was an offer. Any POST on the way can return. */
  lemma {:induction false} PostsAnswerOffers(steps: seq<Step>)
    requires Possible(UNCONNECTED, steps)
    requires Times(steps, PoliteAbsorbs) == Times(steps, ImpoliteAbsorbs) == Times(steps, ImpoliteRebuilds) == 0
    ensures var l := Run(UNCONNECTED, steps);
      && l.polite.posting == Times(steps, PoliteOffers) - Times(steps, PolitePosted)
      && l.impolite.posting == Times(steps, ImpoliteOffers) - Times(steps, ImpolitePosted)
      && l.polite.makingOffer == LastWas(steps, PoliteOffers, PolitePosted, false)
      && l.impolite.makingOffer == LastWas(steps, ImpoliteOffers, ImpolitePosted, false)
      && (Enabled(l, PolitePosted) <==> Times(steps, PoliteOffers) > Times(steps, PolitePosted))
      && (Enabled(l, ImpolitePosted) <==> Times(steps, ImpoliteOffers) > Times(steps, ImpolitePosted))
  {
    PolitePosts(UNCONNECTED, steps);
    ImpolitePosts(UNCONNECTED, steps);
  }
}
