/** The one-place slot: which received offers and answers the page handles, and which it loses. */
module PageSlot {
  import opened Wrappers
  import opened Messages
  import opened PeerConnection
  import opened Page
  import opened PageInvariants
  import opened PageLimits

  /** The offers and answers received, in order. */
  function Heard(es: seq<Event>): (ts: seq<Text>)
    ensures forall i :: 0 <= i < |ts| ==> IsSdp(ts[i])
  {
    if es == [] then []
    else Heard(es[..|es| - 1]) + (if HearsSdp(es[|es| - 1]) then [es[|es| - 1].text] else [])
  }

  /** Arrivals are numbered as they are heard, and the slot holds nothing but the latest. */
  predicate SlotIs(p: Page, heard: seq<Text>) {
    && p.arrivals == |heard|
    && (p.next.pending.Some? ==>
          heard != [] && p.next.pending == Some(Arrival(|heard| - 1, heard[|heard| - 1])))
    && (p.rendered.pending.Some? ==>
          p.rendered.pending.value.n < |heard| && p.rendered.pending.value.text == heard[p.rendered.pending.value.n])
  }

  lemma StepKeepsSlot(p: Page, e: Event, heard: seq<Text>)
    requires SlotIs(p, heard) && forall i :: 0 <= i < |heard| ==> heard[i].Json?
    ensures SlotIs(Step(p, e), heard + (if HearsSdp(e) then [e.text] else []))
  {
    if e.Message? {
      GuardsAreExclusive(e.text);
    }
  }

  lemma {:induction false} SlotHoldsLatest(name: Id, es: seq<Event>)
    ensures SlotIs(Exec(NewPage(name), es), Heard(es))
  {
    if es != [] {
      SlotHoldsLatest(name, es[..|es| - 1]);
      StepKeepsSlot(Exec(NewPage(name), es[..|es| - 1]), es[|es| - 1], Heard(es[..|es| - 1]));
    }
  }

  // ----- What is lost -------------------------------------------------------------------------------

  /** Arrival `n` is neither in the slot nor rendered with its effect due. */
  predicate Gone(p: Page, n: nat) {
    && n < p.arrivals && !(p.next.pending.Some? && p.next.pending.value.n == n)
    && !(p.effectDue && p.rendered.pending.Some? && p.rendered.pending.value.n == n)
  }

  /** The effect that is due starts the handler for arrival `n`. */
  predicate Handles(p: Page, n: nat) {
    EffectActs(p) && p.rendered.pending.value.n == n
  }

  lemma StepKeepsGone(p: Page, e: Event, n: nat)
    requires Gone(p, n)
    ensures Gone(Step(p, e), n)
  {
  }

  /** An arrival that is gone is never handled. */
  lemma {:induction false} GoneForGood(p: Page, n: nat, es: seq<Event>)
    requires Gone(p, n)
    ensures Gone(Exec(p, es), n) && !Handles(Exec(p, es), n)
  {
    if es != [] {
      GoneForGood(p, n, es[..|es| - 1]);
      StepKeepsGone(Exec(p, es[..|es| - 1]), es[|es| - 1], n);
    }
  }

  /** In every run a received offer or answer takes the slot, whatever was in it; what was there, unless
      its own effect is already due, is never handled. */
  lemma NewestOvertakes(name: Id, es: seq<Event>, text: Text, fs: seq<Event>)
    requires IsSdp(text)
    ensures var p := Exec(NewPage(name), es);
      var q := Step(p, Message(text));
      && q.next.pending == Some(Arrival(|Heard(es)|, text))
      && (p.next.pending.Some? && !(p.effectDue && p.rendered.pending == p.next.pending) ==>
            !Handles(Exec(q, fs), p.next.pending.value.n))
  {
    SlotHoldsLatest(name, es);
    GuardsAreExclusive(text);
    var p := Exec(NewPage(name), es);
    var q := Step(p, Message(text));
    if p.next.pending.Some? && !(p.effectDue && p.rendered.pending == p.next.pending) {
      assert Gone(q, p.next.pending.value.n);
      GoneForGood(q, p.next.pending.value.n, fs);
    }
  }

  /** And it is the one that the next rendering shows to the effect, once there is a client id. */
  lemma NewestIsHandled(name: Id, es: seq<Event>, text: Text)
    requires IsSdp(text) && !Exec(NewPage(name), es).effectDue && Truthy(Exec(NewPage(name), es).next.clientId)
    ensures var q := Exec(NewPage(name), es + [Message(text), Render]);
      Handles(q, |Heard(es)|) && q.rendered.pending.value.text == text
  {
    SlotHoldsLatest(name, es);
    GuardsAreExclusive(text);
    var fs, q := Take(NewPage(name), es, Exec(NewPage(name), es), Message(text));
    fs, q := Take(NewPage(name), fs, q, Render);
    assert fs == es + [Message(text), Render];
  }

  /** In every run the effect starts the handler for what was rendered, with the client id rendered and
      the text as it was heard; its sender becomes the peer exactly if none was rendered. The slot is
      emptied, whatever has come into it meanwhile: nothing heard so far is handled again, or at all. */
  lemma EffectHandles(name: Id, es: seq<Event>, n: nat)
    requires Handles(Exec(NewPage(name), es), n)
    ensures n < |Heard(es)|
    ensures var (p, q) := (Exec(NewPage(name), es), Step(Exec(NewPage(name), es), RunEffect));
      var text := Heard(es)[n];
      && (if text.sdp.Some? then q.acts == p.acts + [SettingRemote(p.rendered.clientId, text.from, text.sdp.value)]
          else q.acts == p.acts && !q.negotiating)
      && q.next.peerId == (if text.from.Some? && p.rendered.peerId == "" then text.from.value else p.next.peerId)
      && q.next.pending.None? && forall m :: 0 <= m < |Heard(es)| ==> Gone(q, m)
  {
    SlotHoldsLatest(name, es);
    TracksAreAllOrNothing(name, es);
    EffectStarts(Exec(NewPage(name), es), Heard(es)[n]);
    EffectEmpties(Exec(NewPage(name), es));
  }

  lemma EffectStarts(p: Page, text: Text)
    requires EffectActs(p) && p.rendered.pending.value.text == text && text.Json? && StreamOk(p) && AllOrNothing(p)
    ensures var q := Step(p, RunEffect);
      && (if text.sdp.Some? then q.acts == p.acts + [SettingRemote(p.rendered.clientId, text.from, text.sdp.value)]
          else q.acts == p.acts && !q.negotiating)
      && q.next.peerId == (if text.from.Some? && p.rendered.peerId == "" then text.from.value else p.next.peerId)
  {
    HandlerStarts(p, text);
    assert Step(p, RunEffect).acts == HandleSdp(p, text).acts;
  }

  lemma HandlerStarts(p: Page, text: Text)
    requires text.Json? && StreamOk(p) && AllOrNothing(p)
    ensures var q := HandleSdp(p, text);
      && (if text.sdp.Some? then q.acts == p.acts + [SettingRemote(p.rendered.clientId, text.from, text.sdp.value)]
          else q.acts == p.acts && !q.negotiating)
      && q.next.peerId == (if text.from.Some? && p.rendered.peerId == "" then text.from.value else p.next.peerId)
  {
    EnsureTracksWorks(AdoptPeer(p, text.from));
  }

  lemma EffectEmpties(p: Page)
    requires EffectActs(p) && p.rendered.pending.value.text.Json?
    ensures var q := Step(p, RunEffect);
      q.next.pending.None? && !q.effectDue && q.arrivals == p.arrivals
  {
  }

  /** A message touches the state to be rendered and nothing else: a welcome its client id, an offer or
      answer the slot, a candidate with a sender the peer, and any other text nothing at all. */
  lemma MessageTouches(p: Page, text: Text)
    ensures var q := Step(p, Message(text));
      q == p.(next := p.next.(
        clientId := if Dispatch(text) == ToWelcome then text.id else p.next.clientId,
        pending := if IsSdp(text) then Some(Arrival(p.arrivals, text)) else p.next.pending,
        peerId := if Dispatch(text) == ToCandidate && text.from.Some? then text.from.value else p.next.peerId),
        arrivals := if IsSdp(text) then p.arrivals + 1 else p.arrivals)
  {
    GuardsAreExclusive(text);
  }

  // ----- Before the welcome -------------------------------------------------------------------------

  /** Until a welcome has come in and been rendered the page handles nothing and sends nothing; what it
      has heard last waits in the slot. */
  lemma {:induction false} NothingBeforeWelcome(name: Id, es: seq<Event>)
    requires forall i :: 0 <= i < |es| ==> !(es[i].Message? && IsWelcome(es[i].text))
    ensures var p := Exec(NewPage(name), es);
      && p.next.clientId.None? && p.rendered.clientId.None? && p.sent == []
      && (forall i :: 0 <= i < |p.acts| ==> Offers(p.acts[i]))
      && (if Heard(es) == [] then p.next.pending.None?
          else p.next.pending == Some(Arrival(|Heard(es)| - 1, Heard(es)[|Heard(es)| - 1])))
  {
    if es != [] {
      var p, e := Exec(NewPage(name), es[..|es| - 1]), es[|es| - 1];
      NothingBeforeWelcome(name, es[..|es| - 1]);
      SlotHoldsLatest(name, es[..|es| - 1]);
      UnwelcomedStep(p, e);
    }
  }

  /** Without a client id, or with an empty one, the effect does nothing. */
  lemma NoIdNoEffect(p: Page)
    requires p.rendered.clientId in {None, Some("")}
    ensures !EffectActs(p) && Step(p, RunEffect) == p.(effectDue := false)
  {
  }

  /** What waits in the slot is handled when the welcome has been rendered, even if the slot was rendered
      before. */
  lemma WelcomeReleases(name: Id, es: seq<Event>, id: Id)
    requires forall i :: 0 <= i < |es| ==> !(es[i].Message? && IsWelcome(es[i].text))
    requires Heard(es) != [] && !Exec(NewPage(name), es).effectDue && id != ""
    ensures var q := Exec(NewPage(name), es + [Message(Welcome(id)), Render]);
      Handles(q, |Heard(es)| - 1) && q.rendered.clientId == Some(id)
  {
    NothingBeforeWelcome(name, es);
    GuardsAreExclusive(Welcome(id));
    var fs, q := Take(NewPage(name), es, Exec(NewPage(name), es), Message(Welcome(id)));
    fs, q := Take(NewPage(name), fs, q, Render);
    assert fs == es + [Message(Welcome(id)), Render];
  }

  /** An activation of createOffer by a page without a client id. */
  predicate Offers(act: Act) {
    (act.Offering? || act.SettingOffer?) && act.clientId.None?
  }

  lemma UnwelcomedStep(p: Page, e: Event)
    requires p.next.clientId.None? && p.rendered.clientId.None? && forall i :: 0 <= i < |p.acts| ==> Offers(p.acts[i])
    requires !(e.Message? && IsWelcome(e.text))
    ensures var q := Step(p, e);
      && q.next.clientId.None? && q.rendered.clientId.None? && q.sent == p.sent
      && (forall i :: 0 <= i < |q.acts| ==> Offers(q.acts[i]))
      && q.next.pending == (if HearsSdp(e) then Some(Arrival(p.arrivals, e.text)) else p.next.pending)
  {
    if e.Message? {
      GuardsAreExclusive(e.text);
    }
  }
}
