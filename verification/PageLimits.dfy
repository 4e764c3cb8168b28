/** Where the page falls short: an offer without the stream, and a flag that no press can lower. */
module PageLimits {
  import opened Wrappers
  import opened Messages
  import opened PeerConnection
  import opened Page
  import opened PageInvariants

  lemma ExecSnoc(p: Page, es: seq<Event>, e: Event)
    ensures Exec(p, es + [e]) == Step(Exec(p, es), e)
  {
    assert (es + [e])[..|es|] == es;
  }

  // ----- Offers without the stream --------------------------------------------------------------

  /** There are senders, and none of them has a local track. */
  predicate Silent(p: Page) {
    p.pc.senders != [] && LocalTracks(p.pc.senders) == []
  }

  lemma StepKeepsLocalTracks(p: Page, e: Event)
    requires p.pc.senders != []
    ensures LocalTracks(Step(p, e).pc.senders) == LocalTracks(p.pc.senders)
  {
    if Enabled(p, e) && e.Resolve? {
      ContinueSenders(p, e.i, e.outcome);
    }
  }

  predicate SendersThroughout(p: Page, es: seq<Event>) {
    forall n :: 0 <= n <= |es| ==> Exec(p, es[..n]).pc.senders != []
  }

  /** A page that fell silent stays so, whatever it offers or answers, for as long as the browser
      leaves it any sender. */
  lemma {:induction false} SilenceLasts(p: Page, es: seq<Event>)
    requires Silent(p) && SendersThroughout(p, es)
    ensures Silent(Exec(p, es))
  {
    if es != [] {
      var n := |es| - 1;
      var q := Exec(p, es[..n]);
      assert SendersThroughout(p, es[..n]) by {
        forall m | 0 <= m <= n ensures Exec(p, es[..n][..m]).pc.senders != [] {
          assert es[..n][..m] == es[..m];
        }
      }
      SilenceLasts(p, es[..n]);
      StepKeepsLocalTracks(q, es[n]);
      assert es[..|es|] == es;
    }
  }

  /** One more event of a run. */
  lemma Take(start: Page, es: seq<Event>, p: Page, e: Event) returns (fs: seq<Event>, q: Page)
    requires p == Exec(start, es)
    ensures fs == es + [e] && q == Step(p, e) && q == Exec(start, fs)
  {
    ExecSnoc(start, es, e);
    fs, q := es + [e], Step(p, e);
  }

  lemma HearsOffer(id: Id, peer: Id, o: Sdp) returns (es: seq<Event>, p: Page)
    requires id != "" && peer != "" && o.Offer?
    ensures p == Exec(NewPage(id), es) && p.next == Ui(Some(id), peer, None, false) && !p.effectDue && p.stream.None?
    ensures p.pc == NewPc(id) && p.acts == [SettingRemote(Some(id), Some(peer), o)]
  {
    GuardsAreExclusive(Welcome(id));
    GuardsAreExclusive(OfferText(peer, id, o));
    es, p := Take(NewPage(id), [], NewPage(id), Message(Welcome(id)));
    es, p := Take(NewPage(id), es, p, Message(OfferText(peer, id, o)));
    es, p := Take(NewPage(id), es, p, Render);
    es, p := Take(NewPage(id), es, p, RunEffect);
  }

  /** The browser makes one sender for the offer, without a track. */
  lemma TakesOffer(id: Id, peer: Id, o: Sdp) returns (es: seq<Event>, p: Page)
    requires id != "" && peer != "" && o.Offer?
    ensures p == Exec(NewPage(id), es) && p.next == Ui(Some(id), peer, None, false) && !p.effectDue && p.stream.None?
    ensures p.pc == NewPc(id).(state := HaveRemoteOffer, pendingRemote := Some(o), senders := [None])
    ensures p.acts == [Answering(Some(id), Some(peer))]
  {
    es, p := HearsOffer(id, peer, o);
    es, p := Take(NewPage(id), es, p, Resolve(0, Outcome([None], false)));
  }

  lemma AnswersOffer(id: Id, peer: Id, o: Sdp) returns (es: seq<Event>, p: Page)
    requires id != "" && peer != "" && o.Offer?
    ensures p == Exec(NewPage(id), es) && p.next == Ui(Some(id), peer, None, false) && !p.effectDue && p.stream.None?
    ensures p.pc.senders == [None] && p.pc.state == Stable && !p.negotiating && p.acts == []
  {
    var resolve := Resolve(0, Outcome([None], false));
    es, p := TakesOffer(id, peer, o);
    es, p := Take(NewPage(id), es, p, resolve);
    assert |p.acts| == 1 && p.acts[0].SettingAnswer? && p.acts[0].answer.Answer? && Without(p.acts, 0) == [];
    es, p := Take(NewPage(id), es, p, resolve);
  }

  /** An offer that leaves the stream out, though it is ready: the page answered before it was. */
  lemma SilentOffer(id: Id, peer: Id, o: Sdp, tracks: seq<Track>) returns (es: seq<Event>)
    requires id != "" && peer != "" && o.Offer? && Distinct(tracks) && tracks != []
    ensures var p := Exec(NewPage(id), es);
      && p.pc.state == Stable && !p.negotiating && p.acts == [] && p.rendered.ready && p.stream == Some(tracks)
      && var q := Step(p, Click);
         q.acts == [Offering(Some(id), peer)] && Silent(q) && !SendsStream(q)
  {
    var p;
    es, p := AnswersOffer(id, peer, o);
    es, p := Take(NewPage(id), es, p, StreamReady(tracks));
    es, p := Take(NewPage(id), es, p, Render);
    assert LocalTracks([None]) == [];
  }

  /** In every run, handling an inbound offer puts the stream in exactly if there is one and no sender
      at all, or it was being sent already. */
  lemma AnswerSendsStreamIff(name: Id, es: seq<Event>, from: Option<Id>, o: Sdp)
    requires var p := Exec(NewPage(name), es); EffectActs(p) && Brings(p.rendered.pending.value.text, from, o)
    ensures var p := Exec(NewPage(name), es);
      var q := Step(p, RunEffect);
      && (SendsStream(q) <==> (p.stream.Some? && p.pc.senders == []) || SendsStream(p))
      && q.acts == p.acts + [SettingRemote(p.rendered.clientId, from, o)]
  {
    TracksAreAllOrNothing(name, es);
    EnsureTracksWorks(AdoptPeer(Exec(NewPage(name), es), from));
  }

  /** The text carries that offer. */
  predicate Brings(text: Text, from: Option<Id>, o: Sdp) {
    text.Json? && text.from == from && text.sdp == Some(o) && o.Offer?
  }

  // ----- The flag outside the stable state ------------------------------------------------------

  /** A raised flag, no activation under way, and no message that one could start from. */
  predicate Stuck(p: Page) {
    p.negotiating && p.acts == [] && p.next.pending.None? && !EffectActs(p)
  }

  predicate HearsSdp(e: Event) {
    e.Message? && IsSdp(e.text)
  }

  /** No offer or answer comes in. */
  predicate Unheard(es: seq<Event>) {
    forall i :: 0 <= i < |es| ==> !HearsSdp(es[i])
  }

  lemma StuckStep(p: Page, e: Event)
    requires Stuck(p) && !HearsSdp(e)
    ensures Stuck(Step(p, e)) && Step(p, e).pc == p.pc && Step(p, e).sent == p.sent
  {
    if e.Message? {
      GuardsAreExclusive(e.text);
    }
  }

  /** As long as no offer or answer comes in, nothing that the user or the browser does lowers the
      flag: every press of connect is skipped, and neither connection nor socket is used again. */
  lemma {:induction false} StuckUntilHeard(p: Page, es: seq<Event>)
    requires Stuck(p) && Unheard(es)
    ensures var q := Exec(p, es); Stuck(q) && q.pc == p.pc && q.sent == p.sent
  {
    if es != [] {
      StuckUntilHeard(p, es[..|es| - 1]);
      StuckStep(Exec(p, es[..|es| - 1]), es[|es| - 1]);
    }
  }

  /** What is pending is a message that has arrived, and one that has been rendered has its effect
      due, or had it in vain for want of a client id. */
  predicate SlotOk(p: Page) {
    && ArrivalOk(p, p.next.pending) && ArrivalOk(p, p.rendered.pending)
    && (!p.effectDue && p.rendered.pending.Some? && p.next.pending == p.rendered.pending ==>
          !Truthy(p.rendered.clientId))
  }

  predicate ArrivalOk(p: Page, a: Option<Arrival>) {
    a.Some? ==> a.value.n < p.arrivals && a.value.text.Json?
  }

  lemma {:induction false} ExecKeepsSlotOk(name: Id, es: seq<Event>)
    ensures SlotOk(Exec(NewPage(name), es))
  {
    if es != [] {
      ExecKeepsSlotOk(name, es[..|es| - 1]);
      StepKeepsSlotOk(Exec(NewPage(name), es[..|es| - 1]), es[|es| - 1]);
    }
  }

  lemma StepKeepsSlotOk(p: Page, e: Event)
    requires SlotOk(p)
    ensures SlotOk(Step(p, e))
  {
  }

  /** The effect's message starts an activation or throws at once; if its call fails, the flag is
      down either way. */
  lemma EffectThenFailure(p: Page)
    requires SlotOk(p) && EffectActs(p) && p.acts == []
    ensures !Step(Step(p, RunEffect), Reject(0)).negotiating
  {
  }

  /** Everything short of Stuck has a way down. */
  lemma WayDown(p: Page) returns (es: seq<Event>)
    requires SlotOk(p) && !Stuck(p)
    ensures Unheard(es) && !Exec(p, es).negotiating
  {
    var q := p;
    es := [];
    if !p.negotiating {
      return;
    }
    if p.acts == [] {
      if !EffectActs(p) {
        es, q := Take(p, es, q, RunEffect);
        es, q := WelcomeAndRender(p, es, q);
      }
      EffectThenFailure(q);
      es, q := Take(p, es, q, RunEffect);
    }
    es, q := Take(p, es, q, Reject(0));
  }

  lemma WelcomeAndRender(start: Page, es: seq<Event>, p: Page) returns (fs: seq<Event>, q: Page)
    requires p == Exec(start, es) && Unheard(es) && SlotOk(p)
    requires p.acts == [] && !p.effectDue && p.next.pending.Some?
    ensures q == Exec(start, fs) && Unheard(fs) && SlotOk(q) && q.acts == [] && EffectActs(q)
  {
    GuardsAreExclusive(Welcome("id"));
    fs, q := Take(start, es, p, Message(Welcome("id")));
    fs, q := Take(start, fs, q, Render);
  }

  /** In every run, a raised flag stays up in every continuation without an inbound offer or answer
      exactly when the page is stuck; and then the connection is not in the stable state. */
  lemma FlagSticksIff(name: Id, es: seq<Event>)
    ensures var p := Exec(NewPage(name), es);
      && (Stuck(p) <==> forall fs :: Unheard(fs) ==> Exec(p, fs).negotiating)
      && (Stuck(p) ==> p.pc.state != Stable)
  {
    var p := Exec(NewPage(name), es);
    ExecKeepsSlotOk(name, es);
    ExecKeepsFlagJustified(name, es);
    if Stuck(p) {
      forall fs | Unheard(fs) ensures Exec(p, fs).negotiating {
        StuckUntilHeard(p, fs);
      }
    } else {
      var fs := WayDown(p);
    }
  }

  /** Calling a peer that never answers, such as a mistyped id, is all it takes. */
  lemma StuckHappens(id: Id, peer: string, tracks: seq<Track>) returns (es: seq<Event>)
    requires id != "" && peer != "" && Distinct(tracks)
    ensures var p := Exec(NewPage(id), es);
      && Stuck(p) && p.pc.state == HaveLocalOffer && p.rendered == p.next && !p.effectDue
      && p.sent == [OfferText(id, peer, Offer(id, 0))]
  {
    var p;
    es, p := Made(id, peer, tracks);
    assert Without(p.acts, 0) == [];
    es, p := Take(NewPage(id), es, p, Resolve(0, Outcome(p.pc.senders, false)));
  }

  lemma Made(id: Id, peer: string, tracks: seq<Track>) returns (es: seq<Event>, p: Page)
    requires id != "" && peer != "" && Distinct(tracks)
    ensures p == Exec(NewPage(id), es) && p.next == Ui(Some(id), peer, None, true) && p.rendered == p.next
    ensures !p.effectDue && p.negotiating && p.acts == [SettingOffer(Some(id), peer, Offer(id, 0))] && p.sent == []
    ensures p.pc == NewPc(id).(senders := p.pc.senders, made := 1)
  {
    es, p := Pressed(id, peer, tracks);
    es, p := Take(NewPage(id), es, p, Resolve(0, Outcome(p.pc.senders, false)));
  }

  lemma Pressed(id: Id, peer: string, tracks: seq<Track>) returns (es: seq<Event>, p: Page)
    requires id != "" && peer != "" && Distinct(tracks)
    ensures p == Exec(NewPage(id), es) && p.next == Ui(Some(id), peer, None, true) && p.rendered == p.next
    ensures !p.effectDue && p.negotiating && p.acts == [Offering(Some(id), peer)] && p.sent == []
    ensures p.pc == NewPc(id).(senders := p.pc.senders)
  {
    es, p := Filled(id, peer, tracks);
    EnsureTracksWorks(p.(negotiating := true));
    es, p := Take(NewPage(id), es, p, Click);
  }

  /** A page that has heard its welcome and has its stream, with the peer's id typed in. */
  lemma Filled(id: Id, peer: string, tracks: seq<Track>) returns (es: seq<Event>, p: Page)
    requires id != "" && Distinct(tracks)
    ensures p == Exec(NewPage(id), es) && p.next == Ui(Some(id), peer, None, true) && p.rendered == p.next
    ensures !p.effectDue && p.stream == Some(tracks) && p.pc == NewPc(id)
    ensures p.acts == [] && !p.negotiating && p.sent == []
  {
    GuardsAreExclusive(Welcome(id));
    es, p := Take(NewPage(id), [], NewPage(id), Message(Welcome(id)));
    es, p := Take(NewPage(id), es, p, StreamReady(tracks));
    es, p := Take(NewPage(id), es, p, TypePeer(peer));
    es, p := Take(NewPage(id), es, p, Render);
    es, p := Take(NewPage(id), es, p, RunEffect);
  }
}
