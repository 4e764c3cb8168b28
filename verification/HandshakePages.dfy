/**
 One round of offer and answer, seen from each of the two pages: the caller, who alone presses
 connect, and the callee. Any call of theirs may fail; JSEP decides what can succeed.
 */
module HandshakePages {
  import opened Wrappers
  import opened Messages
  import opened PeerConnection
  import opened Page
  import opened PageInvariants

  /** A page that has its id, with its one-place slot in order: a pending message is yet to be
      rendered, or rendered with the effect due. */
  predicate PageOk(p: Page, id: Id) {
    && id != "" && p.rendered.clientId == Some(id) && p.next.clientId == Some(id)
    && StreamOk(p) && AllOrNothing(p)
    && (p.effectDue && p.rendered.pending.Some? ==> p.rendered.pending == p.next.pending)
    && (p.next.pending.Some? && p.rendered.pending == p.next.pending ==> p.effectDue)
    && (p.rendered.pending.Some? ==> p.rendered.pending.value.n < p.arrivals)
    && (p.next.pending.Some? ==> p.next.pending.value.n < p.arrivals && p.next.pending.value.text.Json?)
  }

  /** The slot holds the text, or nothing. */
  predicate Slot(p: Page, text: Option<Text>) {
    match text
    case None => p.next.pending.None?
    case Some(t) => p.next.pending.Some? && p.next.pending.value.text == t
  }

  // ----- The caller -------------------------------------------------------------------------------

  datatype Caller = CallerIdle | Creating | Setting | Waiting | HasAnswer | Finishing

  /** A caller that could not set an answer may begin the next round with its old offer pending. */
  predicate CallerPc(pc: Pc, c: Caller, o: Sdp) {
    && pc.pendingRemote.None?
    && (if c in {CallerIdle, Creating, Setting} then pc.state in {Stable, HaveLocalOffer}
        else pc.state == HaveLocalOffer && pc.pendingLocal == Some(o))
  }

  predicate CallerActs(acts: seq<Act>, c: Caller, o: Sdp, a: Sdp, me: Id, peer: Id) {
    match c
    case Creating => acts == [Offering(Some(me), peer)]
    case Setting =>
      |acts| == 1 && acts[0].SettingOffer? && acts[0].clientId == Some(me) && acts[0].peer == peer && acts[0].offer == o
    case Finishing => acts == [SettingRemote(Some(me), Some(peer), a)]
    case _ => acts == []
  }

  /** `o` is the offer of the round and `a` its answer. */
  predicate CallerAt(p: Page, c: Caller, o: Sdp, a: Sdp, me: Id, peer: Id) {
    && PageOk(p, me) && peer != "" && o.Offer? && a.Answer?
    && CallerActs(p.acts, c, o, a, me, peer)
    && Slot(p, if c == HasAnswer then Some(AnswerText(peer, me, a)) else None)
    && (p.negotiating <==> c != CallerIdle)
    && CallerPc(p.pc, c, o)
  }

  /** The events that the caller's user and browser may cause. */
  predicate CallerEvent(e: Event) {
    !e.Message?
  }

  /** Connect, if pressed now, is for `peer`, or the page skips the press. */
  predicate PressIsFor(p: Page, peer: Id) {
    || p.rendered.peerId == "" || !p.rendered.ready || p.stream.None? || p.negotiating
    || p.rendered.peerId == peer
  }

  predicate SameSignaling(p: Page, q: Page) {
    q.sent == p.sent && q.pc == p.pc.(senders := q.pc.senders)
  }

  lemma OkAfter(p: Page, e: Event, id: Id)
    requires PageOk(p, id) && (e.Render? || e.StreamReady? || e.TypePeer?)
    ensures PageOk(Step(p, e), id)
  {
    StepKeepsTracks(p, e);
  }

  lemma CallerViews(p: Page, e: Event, c: Caller, o: Sdp, a: Sdp, me: Id, peer: Id)
    requires CallerAt(p, c, o, a, me, peer) && (e.Render? || e.StreamReady? || e.TypePeer?)
    ensures CallerAt(Step(p, e), c, o, a, me, peer) && SameSignaling(p, Step(p, e))
  {
    OkAfter(p, e, me);
  }

  lemma CallerClicks(p: Page, c: Caller, o: Sdp, a: Sdp, me: Id, peer: Id)
    requires CallerAt(p, c, o, a, me, peer) && PressIsFor(p, peer)
    ensures var q := Step(p, Click);
      && SameSignaling(p, q)
      && (CallerAt(q, c, o, a, me, peer) || (c == CallerIdle && CallerAt(q, Creating, o, a, me, peer)))
      && (q != p ==> c == CallerIdle && q.acts != [])
  {
    StepKeepsTracks(p, Click);
    EnsureTracksWorks(p.(negotiating := true));
  }

  lemma CallerEffect(p: Page, c: Caller, o: Sdp, a: Sdp, me: Id, peer: Id)
    requires CallerAt(p, c, o, a, me, peer)
    ensures var q := Step(p, RunEffect);
      && SameSignaling(p, q)
      && CallerAt(q, if c == HasAnswer && EffectActs(p) then Finishing else c, o, a, me, peer)
  {
    StepKeepsTracks(p, RunEffect);
  }

  lemma ResolveKeepsOk(p: Page, i: nat, out: Outcome, id: Id)
    requires PageOk(p, id) && Enabled(p, Resolve(i, out))
    ensures PageOk(Step(p, Resolve(i, out)), id)
  {
    StepKeepsTracks(p, Resolve(i, out));
    ResolveKeepsView(p, i, out);
  }

  lemma ResolveKeepsView(p: Page, i: nat, out: Outcome)
    ensures var q := Step(p, Resolve(i, out));
      q.rendered == p.rendered && q.next == p.next && q.effectDue == p.effectDue && q.arrivals == p.arrivals
  {
  }

  /** The caller's awaited calls: the offer is made, set and sent; the answer completes the round. */
  lemma CallerResolves(p: Page, i: nat, out: Outcome, c: Caller, o: Sdp, a: Sdp, me: Id, peer: Id)
    requires CallerAt(p, c, o, a, me, peer) && Enabled(p, Resolve(i, out))
    ensures i == 0 && c in {Creating, Setting, Finishing}
    ensures var q := Step(p, Resolve(i, out));
      match c
      case Creating =>
        && CallerAt(q, Setting, CreateOffer(p.pc).1, a, me, peer) && q.sent == p.sent && q.pc.state == p.pc.state
        && q.pc.currentLocal == p.pc.currentLocal && q.pc.currentRemote == p.pc.currentRemote
      case Setting =>
        && CallerAt(q, Waiting, o, a, me, peer) && q.sent == p.sent + [OfferText(me, peer, o)]
        && q.pc.currentLocal == p.pc.currentLocal && q.pc.currentRemote == p.pc.currentRemote
      case Finishing =>
        && CallerAt(q, CallerIdle, o, a, me, peer) && q.sent == p.sent
        && q.pc.state == Stable && q.pc.currentLocal == Some(o) && q.pc.currentRemote == Some(a)
      case _ => true
  {
    ResolveKeepsOk(p, i, out, me);
    assert Without([p.acts[0]], 0) == [];
  }

  /** A call that fails ends the caller's part, with its connection as it was. */
  lemma CallerFails(p: Page, i: nat, c: Caller, o: Sdp, a: Sdp, me: Id, peer: Id)
    requires CallerAt(p, c, o, a, me, peer) && Enabled(p, Reject(i))
    ensures c in {Creating, Setting, Finishing}
    ensures var q := Step(p, Reject(i)); CallerAt(q, CallerIdle, o, a, me, peer) && q.pc == p.pc && q.sent == p.sent
  {
    StepKeepsTracks(p, Reject(i));
    assert Without([p.acts[0]], 0) == [];
  }

  lemma CallerHears(p: Page, o: Sdp, a: Sdp, me: Id, peer: Id)
    requires CallerAt(p, Waiting, o, a, me, peer)
    ensures var q := Step(p, Message(AnswerText(peer, me, a)));
      CallerAt(q, HasAnswer, o, a, me, peer) && SameSignaling(p, q)
  {
    GuardsAreExclusive(AnswerText(peer, me, a));
    StepKeepsTracks(p, Message(AnswerText(peer, me, a)));
  }

  // ----- The callee -------------------------------------------------------------------------------

  /** `GaveUp` when a call of its has failed: the offer stays unanswered. */
  datatype Callee = CalleeIdle | HasOffer | TakingOffer | MakingAnswer | GivingAnswer | GaveUp

  predicate CalleePc(pc: Pc, c: Callee, o: Sdp) {
    match c
    case GaveUp => true
    case MakingAnswer => pc.pendingLocal.None? && pc.state == HaveRemoteOffer && pc.pendingRemote == Some(o)
    case GivingAnswer => pc.pendingLocal.None? && pc.state == HaveRemoteOffer && pc.pendingRemote == Some(o)
    case _ => pc.pendingLocal.None? && pc.state == Stable && pc.pendingRemote.None?
  }

  predicate CalleeActs(acts: seq<Act>, c: Callee, o: Sdp, a: Sdp, me: Id, peer: Id) {
    match c
    case TakingOffer => acts == [SettingRemote(Some(me), Some(peer), o)]
    case MakingAnswer => acts == [Answering(Some(me), Some(peer))]
    case GivingAnswer => acts == [SettingAnswer(Some(me), Some(peer), a)]
    case _ => acts == []
  }

  predicate CalleeAt(p: Page, c: Callee, o: Sdp, a: Sdp, me: Id, peer: Id) {
    && PageOk(p, me) && o.Offer? && a.Answer?
    && CalleeActs(p.acts, c, o, a, me, peer)
    && Slot(p, if c == HasOffer then Some(OfferText(peer, me, o)) else None)
    && (p.negotiating <==> c in {MakingAnswer, GivingAnswer})
    && CalleePc(p.pc, c, o)
    && (c == GivingAnswer ==> a.offer == o)
  }

  predicate CalleeEvent(e: Event) {
    !e.Message? && !e.Click?
  }

  lemma CalleeViews(p: Page, e: Event, c: Callee, o: Sdp, a: Sdp, me: Id, peer: Id)
    requires CalleeAt(p, c, o, a, me, peer) && (e.Render? || e.StreamReady? || e.TypePeer?)
    ensures CalleeAt(Step(p, e), c, o, a, me, peer) && SameSignaling(p, Step(p, e))
  {
    OkAfter(p, e, me);
  }

  lemma CalleeEffect(p: Page, c: Callee, o: Sdp, a: Sdp, me: Id, peer: Id)
    requires CalleeAt(p, c, o, a, me, peer)
    ensures var q := Step(p, RunEffect);
      && SameSignaling(p, q)
      && CalleeAt(q, if c == HasOffer && EffectActs(p) then TakingOffer else c, o, a, me, peer)
  {
    StepKeepsTracks(p, RunEffect);
    if EffectActs(p) {
      EnsureTracksWorks(AdoptPeer(p, Some(peer)));
    }
  }

  /** A callee that has typed no peer takes the caller for its peer; one that has keeps its own. */
  lemma CalleeAdoptsCaller(p: Page, o: Sdp, a: Sdp, me: Id, peer: Id)
    requires CalleeAt(p, HasOffer, o, a, me, peer) && EffectActs(p)
    ensures var q := Step(p, RunEffect);
      && q.next.peerId == (if p.rendered.peerId == "" then peer else p.next.peerId)
      && q.next.pending.None? && q.acts == [SettingRemote(Some(me), Some(peer), o)]
  {
    EnsureTracksWorks(AdoptPeer(p, Some(peer)));
  }

  /** The callee's awaited calls: the offer is set, the answer made for it, set and sent. */
  lemma CalleeResolves(p: Page, i: nat, out: Outcome, c: Callee, o: Sdp, a: Sdp, me: Id, peer: Id)
    requires CalleeAt(p, c, o, a, me, peer) && Enabled(p, Resolve(i, out))
    ensures i == 0 && c in {TakingOffer, MakingAnswer, GivingAnswer}
    ensures var q := Step(p, Resolve(i, out));
      match c
      case TakingOffer =>
        && CalleeAt(q, MakingAnswer, o, a, me, peer) && q.sent == p.sent
        && q.pc.currentLocal == p.pc.currentLocal && q.pc.currentRemote == p.pc.currentRemote
      case MakingAnswer =>
        && CalleeAt(q, GivingAnswer, o, Answer(p.pc.name, p.pc.made, o), me, peer) && q.sent == p.sent
        && q.pc.currentLocal == p.pc.currentLocal && q.pc.currentRemote == p.pc.currentRemote
      case GivingAnswer =>
        && CalleeAt(q, CalleeIdle, o, a, me, peer) && q.sent == p.sent + [AnswerText(me, peer, a)]
        && q.pc.currentLocal == Some(a) && q.pc.currentRemote == Some(o)
      case _ => true
  {
    ResolveKeepsOk(p, i, out, me);
    assert Without([p.acts[0]], 0) == [];
  }

  lemma CalleeFails(p: Page, i: nat, c: Callee, o: Sdp, a: Sdp, me: Id, peer: Id)
    requires CalleeAt(p, c, o, a, me, peer) && Enabled(p, Reject(i))
    ensures c in {TakingOffer, MakingAnswer, GivingAnswer}
    ensures var q := Step(p, Reject(i)); CalleeAt(q, GaveUp, o, a, me, peer) && q.pc == p.pc && q.sent == p.sent
  {
    StepKeepsTracks(p, Reject(i));
    assert Without([p.acts[0]], 0) == [];
  }

  lemma CalleeHears(p: Page, o: Sdp, a: Sdp, o': Sdp, me: Id, peer: Id)
    requires CalleeAt(p, CalleeIdle, o', a, me, peer) && o.Offer?
    ensures var q := Step(p, Message(OfferText(peer, me, o)));
      CalleeAt(q, HasOffer, o, a, me, peer) && SameSignaling(p, q)
  {
    GuardsAreExclusive(OfferText(peer, me, o));
    StepKeepsTracks(p, Message(OfferText(peer, me, o)));
  }
}
