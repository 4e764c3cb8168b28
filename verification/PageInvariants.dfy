/** What the page keeps in every run: any inbound texts, clicks, orders of awaits and failures. */
module PageInvariants {
  import opened Messages
  import opened PeerConnection
  import opened Page

  // ----- The negotiation flag -------------------------------------------------------------------

  /** Some createOffer is suspended before its offer is set. */
  predicate OfferUnderWay(acts: seq<Act>) {
    exists i :: 0 <= i < |acts| && (acts[i].Offering? || acts[i].SettingOffer?)
  }

  /** A raised flag in the stable state is owed to a suspended createOffer. */
  predicate FlagJustified(p: Page) {
    p.negotiating && p.pc.state == Stable ==> OfferUnderWay(p.acts)
  }

  lemma OfferElsewhere(acts: seq<Act>, i: nat)
    requires i < |acts| && OfferUnderWay(acts) && !acts[i].Offering? && !acts[i].SettingOffer?
    ensures OfferUnderWay(Without(acts, i))
  {
    var j :| 0 <= j < |acts| && (acts[j].Offering? || acts[j].SettingOffer?);
    var rest := Without(acts, i);
    assert rest[if j < i then j else j - 1] == acts[j];
  }

  lemma ClickKeepsFlag(p: Page)
    requires FlagJustified(p)
    ensures FlagJustified(ClickConnect(p))
  {
    var q := ClickConnect(p);
    assert q.acts != p.acts ==> q.acts[|p.acts|].Offering?;
  }

  lemma EffectKeepsFlag(p: Page)
    requires FlagJustified(p) && Enabled(p, RunEffect)
    ensures FlagJustified(PendingEffect(p))
  {
    assert forall j :: 0 <= j < |p.acts| ==> PendingEffect(p).acts[j] == p.acts[j];
  }

  /** An awaited description that was set leaves a state of its own kind; whoever reaches the
      stable state lowers the flag on the way. */
  lemma SignalKeepsFlag(p: Page, act: Act, o: Outcome)
    requires Succeed(p.pc, act, o).Some?
    ensures var pc := Succeed(p.pc, act, o).value;
      var q := Signal(p, pc);
      && (act.SettingOffer? ==> pc.state != Stable)
      && (act.SettingRemote? && act.sdp.Offer? ==> pc.state != Stable)
      && (pc.state == Stable && q.negotiating ==> p.pc.state == Stable && p.negotiating)
  {
  }

  lemma ContinueKeepsFlag(p: Page, i: nat, o: Outcome)
    requires FlagJustified(p) && Enabled(p, Resolve(i, o))
    ensures FlagJustified(Step(p, Resolve(i, o)))
  {
    var q := Step(p, Resolve(i, o));
    SignalKeepsFlag(p, p.acts[i], o);
    if q.negotiating && q.pc.state == Stable {
      assert FlagJustified(p) && OfferUnderWay(p.acts);
      if p.acts[i].Offering? {
        assert q.acts[i].SettingOffer?;
      } else {
        OfferElsewhere(p.acts, i);
      }
    }
  }

  lemma StepKeepsFlagJustified(p: Page, e: Event)
    requires FlagJustified(p)
    ensures FlagJustified(Step(p, e))
  {
    if Enabled(p, e) {
      match e
      case Resolve(i, o) => ContinueKeepsFlag(p, i, o);
      case Click => ClickKeepsFlag(p);
      case RunEffect => EffectKeepsFlag(p);
      case _ =>
    }
  }

  lemma {:induction false} ExecKeepsFlagJustified(name: Id, es: seq<Event>)
    ensures FlagJustified(Exec(NewPage(name), es))
  {
    if es != [] {
      ExecKeepsFlagJustified(name, es[..|es| - 1]);
      StepKeepsFlagJustified(Exec(NewPage(name), es[..|es| - 1]), es[|es| - 1]);
    }
  }

  // ----- The local tracks -----------------------------------------------------------------------

  predicate StreamOk(p: Page) {
    p.stream.Some? ==> Distinct(p.stream.value)
  }

  /** The senders carry no local track, or exactly the tracks of the stream, each once. */
  predicate AllOrNothing(p: Page) {
    || LocalTracks(p.pc.senders) == []
    || (p.stream.Some? && LocalTracks(p.pc.senders) == p.stream.value)
  }

  /** Where tracks are added, addTrack never throws, and all of them go in. */
  lemma EnsureTracksWorks(p: Page)
    requires StreamOk(p) && AllOrNothing(p)
    ensures !EnsureTracks(p).1 && AllOrNothing(EnsureTracks(p).0)
    ensures p.stream.Some? && p.pc.senders == [] ==> LocalTracks(EnsureTracks(p).0.pc.senders) == p.stream.value
    ensures LocalTracks(p.pc.senders) != [] ==> EnsureTracks(p).0 == p
  {
    if p.stream.Some? && p.pc.senders == [] {
      AddTracksAddsAll(p.pc.senders, p.stream.value);
    }
  }

  lemma SucceedKeepsTracks(pc: Pc, act: Act, o: Outcome)
    requires Succeed(pc, act, o).Some? && LocalTracks(o.senders) == LocalTracks(pc.senders)
    ensures LocalTracks(Succeed(pc, act, o).value.senders) == LocalTracks(pc.senders)
  {
  }

  /** No offer of its own has been begun, and no remote one handled. */
  predicate Untouched(p: Page) {
    p.pc.senders == [] && NothingBegun(p.acts)
  }

  predicate NothingBegun(acts: seq<Act>) {
    forall i :: 0 <= i < |acts| ==> acts[i].SettingRemote? && !acts[i].sdp.Offer?
  }

  predicate SendsStream(p: Page) {
    p.stream.Some? && LocalTracks(p.pc.senders) == p.stream.value
  }

  /** What a step owes to the tracks. */
  predicate KeepsTracks(p: Page, q: Page) {
    && AllOrNothing(q)
    && (LocalTracks(p.pc.senders) != [] ==> LocalTracks(q.pc.senders) == LocalTracks(p.pc.senders))
    && (p.stream.Some? && (Untouched(p) || SendsStream(p)) ==> Untouched(q) || SendsStream(q))
  }

  lemma ClickKeepsTracks(p: Page)
    requires StreamOk(p) && AllOrNothing(p)
    ensures ClickConnect(p).stream == p.stream && KeepsTracks(p, ClickConnect(p))
  {
    EnsureTracksWorks(p.(negotiating := true));
  }

  lemma HandleSdpKeepsTracks(p: Page, data: Text)
    requires StreamOk(p) && AllOrNothing(p) && data.Json?
    ensures HandleSdp(p, data).stream == p.stream && KeepsTracks(p, HandleSdp(p, data))
  {
    var q := HandleSdp(p, data);
    EnsureTracksWorks(AdoptPeer(p, data.from));
    if data.sdp.Some? && !data.sdp.value.Offer? && Untouched(p) {
      assert forall i :: 0 <= i < |p.acts| ==> q.acts[i] == p.acts[i];
    }
  }

  lemma ContinueUntouched(p: Page, i: nat, o: Outcome)
    requires Untouched(p) && Enabled(p, Resolve(i, o))
    ensures Untouched(Step(p, Resolve(i, o)))
  {
    assert p.acts[i].SettingRemote? && !p.acts[i].sdp.Offer?;
    assert Step(p, Resolve(i, o)).acts == Without(p.acts, i);
    assert NothingBegun(Without(p.acts, i));
  }

  lemma ContinueSenders(p: Page, i: nat, o: Outcome)
    requires Enabled(p, Resolve(i, o))
    ensures var q := Step(p, Resolve(i, o));
      q.stream == p.stream && LocalTracks(q.pc.senders) == LocalTracks(p.pc.senders)
  {
    SucceedKeepsTracks(p.pc, p.acts[i], o);
    assert Step(p, Resolve(i, o)).pc == Succeed(p.pc, p.acts[i], o).value;
  }

  lemma ContinueKeepsTracks(p: Page, i: nat, o: Outcome)
    requires StreamOk(p) && AllOrNothing(p) && Enabled(p, Resolve(i, o))
    ensures Step(p, Resolve(i, o)).stream == p.stream && KeepsTracks(p, Step(p, Resolve(i, o)))
  {
    ContinueSenders(p, i, o);
    if Untouched(p) {
      ContinueUntouched(p, i, o);
    }
  }

  lemma RejectKeepsTracks(p: Page, i: nat)
    requires AllOrNothing(p) && i < |p.acts|
    ensures KeepsTracks(p, Step(p, Reject(i)))
  {
    assert NothingBegun(p.acts) ==> NothingBegun(Without(p.acts, i));
  }

  lemma StepKeepsTracks(p: Page, e: Event)
    requires StreamOk(p) && AllOrNothing(p)
    ensures var q := Step(p, e); StreamOk(q) && KeepsTracks(p, q) && (p.stream.Some? ==> q.stream == p.stream)
  {
    if Enabled(p, e) {
      match e
      case Click => ClickKeepsTracks(p);
      case RunEffect =>
        if EffectActs(p) {
          HandleSdpKeepsTracks(p, p.rendered.pending.value.text);
        }
      case Resolve(i, o) => ContinueKeepsTracks(p, i, o);
      case Reject(i) => RejectKeepsTracks(p, i);
      case _ =>
        assert Step(p, e).pc == p.pc && Step(p, e).acts == p.acts;
    }
  }

  /** In every run the tracks sent are none or all of the stream's, and the call of addTrack on a
      track already sent, which would throw, never happens. */
  lemma {:induction false} TracksAreAllOrNothing(name: Id, es: seq<Event>)
    ensures var p := Exec(NewPage(name), es);
      && StreamOk(p) && AllOrNothing(p)
      && !EnsureTracks(p).1
  {
    if es != [] {
      TracksAreAllOrNothing(name, es[..|es| - 1]);
      StepKeepsTracks(Exec(NewPage(name), es[..|es| - 1]), es[|es| - 1]);
    }
    EnsureTracksWorks(Exec(NewPage(name), es));
  }

  /** A stream that was ready before the first offer was created or handled is sent from then on:
      in every later state it is sent, or still nothing has been begun. */
  lemma {:induction false} ReadyStreamIsSent(p: Page, es: seq<Event>)
    requires StreamOk(p) && p.stream.Some? && Untouched(p)
    ensures var q := Exec(p, es); q.stream == p.stream && (Untouched(q) || SendsStream(q))
    ensures StreamOk(Exec(p, es)) && AllOrNothing(Exec(p, es))
  {
    if es != [] {
      var q := Exec(p, es[..|es| - 1]);
      ReadyStreamIsSent(p, es[..|es| - 1]);
      StepKeepsTracks(q, es[|es| - 1]);
    }
  }

  /** No flag is left up in the stable state: whatever happened before, when the connection is
      stable and no createOffer is suspended, a click on a filled-in page starts a new offer. That
      offer carries the stream exactly if there was no sender before, or the stream was sent. */
  lemma FlagNeverSticks(name: Id, es: seq<Event>)
    ensures var p := Exec(NewPage(name), es);
      p.pc.state == Stable && !OfferUnderWay(p.acts) ==>
        && !p.negotiating
        && (p.rendered.peerId != "" && p.rendered.ready && p.stream.Some? ==>
              var q := Step(p, Click);
              && q.negotiating && q.acts == p.acts + [Offering(p.rendered.clientId, p.rendered.peerId)]
              && (SendsStream(q) <==> p.pc.senders == [] || SendsStream(p)))
  {
    ExecKeepsFlagJustified(name, es);
    OfferSendsStreamIff(name, es);
  }

  /** In every run, a click that starts an offer puts the stream in exactly if there was no sender
      at all before, or the stream was being sent: senders that a remote offer made count as added
      tracks, although they carry none. */
  lemma OfferSendsStreamIff(name: Id, es: seq<Event>)
    ensures var p := Exec(NewPage(name), es);
      var q := Step(p, Click);
      && (q.acts != p.acts ==> (SendsStream(q) <==> p.pc.senders == [] || SendsStream(p)))
      && (p.rendered.peerId != "" && p.rendered.ready && p.stream.Some? && !p.negotiating ==>
            q.negotiating && q.acts == p.acts + [Offering(p.rendered.clientId, p.rendered.peerId)])
  {
    TracksAreAllOrNothing(name, es);
    EnsureTracksWorks(Exec(NewPage(name), es).(negotiating := true));
  }
}
