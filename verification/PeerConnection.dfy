/**
 The browser's RTCPeerConnection, as far as signaling sees it: the state machine of section 3.2
 of RFC 9429, the four description slots, and the senders.
 */
module PeerConnection {
  import opened Wrappers
  import opened Messages

  type Track = nat

  datatype Signaling = Stable | HaveLocalOffer | HaveRemoteOffer | HaveLocalPranswer | HaveRemotePranswer

  datatype Side = Local | Remote

  /** A sender has no track when it came with a remote offer. */
  type Senders = seq<Option<Track>>

  datatype Pc = Pc(
    name: Id, state: Signaling,
    currentLocal: Option<Sdp>, pendingLocal: Option<Sdp>, currentRemote: Option<Sdp>, pendingRemote: Option<Sdp>,
    senders: Senders, made: nat)

  function NewPc(name: Id): Pc {
    Pc(name, Stable, None, None, None, None, [], 0)
  }

  /** The transition table; None is an InvalidStateError. A rollback leaves any state but stable. */
  function JsepNext(state: Signaling, side: Side, d: Sdp): Option<Signaling> {
    match d
    case Offer(_, _) =>
      if side == Local && state in {Stable, HaveLocalOffer} then Some(HaveLocalOffer)
      else if side == Remote && state in {Stable, HaveRemoteOffer} then Some(HaveRemoteOffer)
      else None
    case Answer(_, _, _) =>
      if side == Local && state in {HaveRemoteOffer, HaveLocalPranswer} then Some(Stable)
      else if side == Remote && state in {HaveLocalOffer, HaveRemotePranswer} then Some(Stable)
      else None
    case Pranswer(_) =>
      if side == Local && state in {HaveRemoteOffer, HaveLocalPranswer} then Some(HaveLocalPranswer)
      else if side == Remote && state in {HaveLocalOffer, HaveRemotePranswer} then Some(HaveRemotePranswer)
      else None
    case Rollback => if state != Stable then Some(Stable) else None
  }

  /** The arrows of the state diagram of section 3.2 of RFC 9429, but for the rollbacks. */
  const ARROWS: set<(Signaling, Side, string, Signaling)> := {
    (Stable, Local, "offer", HaveLocalOffer), (HaveLocalOffer, Local, "offer", HaveLocalOffer),
    (Stable, Remote, "offer", HaveRemoteOffer), (HaveRemoteOffer, Remote, "offer", HaveRemoteOffer),
    (HaveLocalOffer, Remote, "answer", Stable), (HaveRemoteOffer, Local, "answer", Stable),
    (HaveLocalOffer, Remote, "pranswer", HaveRemotePranswer),
    (HaveRemotePranswer, Remote, "pranswer", HaveRemotePranswer), (HaveRemotePranswer, Remote, "answer", Stable),
    (HaveRemoteOffer, Local, "pranswer", HaveLocalPranswer),
    (HaveLocalPranswer, Local, "pranswer", HaveLocalPranswer), (HaveLocalPranswer, Local, "answer", Stable)
  }

  /** The transition table takes exactly the arrows, and a rollback leads back to stable. */
  lemma TableIsDiagram(state: Signaling, side: Side, d: Sdp, next: Signaling)
    ensures JsepNext(state, side, d) == Some(next) <==>
      if d.Rollback? then state != Stable && next == Stable else (state, side, SdpType(d), next) in ARROWS
  {
    assert "offer"[0] != "answer"[0] && "offer"[0] != "pranswer"[0] && "answer"[0] != "pranswer"[0];
  }

  /** The description slots: an answer makes the pending pair current, a rollback drops it. */
  function Apply(pc: Pc, side: Side, d: Sdp, state: Signaling): Pc {
    match d
    case Answer(_, _, _) =>
      var settled := pc.(state := state, pendingLocal := None, pendingRemote := None);
      if side == Local then settled.(currentLocal := Some(d), currentRemote := pc.pendingRemote)
      else settled.(currentRemote := Some(d), currentLocal := pc.pendingLocal)
    case Rollback => pc.(state := state, pendingLocal := None, pendingRemote := None)
    case _ =>
      if side == Local then pc.(state := state, pendingLocal := Some(d))
      else pc.(state := state, pendingRemote := Some(d))
  }

  /** A successful setLocalDescription or setRemoteDescription; None when only failure is possible.
      A browser may roll its own offer back to take the remote one. */
  function SetDescription(pc: Pc, side: Side, d: Sdp, implicitRollback: bool): Option<Pc> {
    var next := JsepNext(pc.state, side, d);
    if next.Some? then Some(Apply(pc, side, d, next.value))
    else if implicitRollback && side == Remote && d.Offer? && pc.state == HaveLocalOffer then
      Some(Apply(pc.(pendingLocal := None), side, d, HaveRemoteOffer))
    else None
  }

  /** Whether a signalingstatechange event shows the stable state on the way from `was` to `now`: the
      new state is stable, or the browser has rolled its own offer back to take the remote one. */
  predicate SeenStable(was: Pc, now: Pc) {
    || (now.state != was.state && now.state == Stable)
    || (was.state == HaveLocalOffer && now.state == HaveRemoteOffer)
  }

  /** A rollback undoes an offer: the connection is as it was in the stable state. */
  lemma RollbackUndoes(pc: Pc, side: Side, other: Side, d: Sdp)
    requires pc.state == Stable && pc.pendingLocal.None? && pc.pendingRemote.None? && d.Offer?
    ensures var was := SetDescription(pc, side, d, false);
      was.Some? && SetDescription(was.value, other, Rollback, false) == Some(pc)
  {
  }

  /** A round with a provisional answer: it is pending until the answer replaces it, and only the answer
      makes anything current. */
  lemma ProvisionalRound(pc: Pc, o: Sdp, body: nat, d: Sdp)
    requires pc.state == Stable && pc.pendingRemote.None? && o.Offer? && d.Answer?
    ensures var a := SetDescription(pc, Local, o, false);
      && a.Some? && a.value.pendingLocal == Some(o)
      && var b := SetDescription(a.value, Remote, Pranswer(body), false);
      && b.Some? && b.value.pendingRemote == Some(Pranswer(body)) && b.value.pendingLocal == Some(o)
      && b.value.currentLocal == pc.currentLocal && b.value.currentRemote == pc.currentRemote
      && var c := SetDescription(b.value, Remote, d, false);
         c == Some(pc.(currentLocal := Some(o), currentRemote := Some(d), pendingLocal := None))
  {
  }

  /** An offer taken after the browser's own rollback leaves nothing of the own offer, and its events
      show the stable state on the way. */
  lemma ImplicitRollback(pc: Pc, d: Sdp)
    requires pc.state == HaveLocalOffer && pc.pendingRemote.None? && d.Offer?
    ensures SetDescription(pc, Remote, d, false).None?
    ensures var now := SetDescription(pc, Remote, d, true);
      && now == SetDescription(Apply(pc, Local, Rollback, Stable), Remote, d, false)
      && now.Some? && SeenStable(pc, now.value)
  {
  }

  /** createAnswer succeeds exactly where its answer can be set. */
  lemma AnswerFits(pc: Pc, d: Sdp)
    requires pc.pendingRemote.Some? && d.Answer?
    ensures CanAnswer(pc) <==> SetDescription(pc, Local, d, false).Some?
  {
  }

  type OfferSdp = s: Sdp | s.Offer? witness Offer("", 0)

  function CreateOffer(pc: Pc): (Pc, OfferSdp) {
    (pc.(made := pc.made + 1), Offer(pc.name, pc.made))
  }

  /** createAnswer needs a pending remote offer to answer. */
  predicate CanAnswer(pc: Pc) {
    pc.state in {HaveRemoteOffer, HaveLocalPranswer} && pc.pendingRemote.Some?
  }

  function CreateAnswer(pc: Pc): (Pc, Sdp)
    requires CanAnswer(pc)
  {
    (pc.(made := pc.made + 1), Answer(pc.name, pc.made, pc.pendingRemote.value))
  }

  // ----- Tracks (webrtc/src/utils/webrtc-helpers.ts) -------------------------------------------

  function LocalTracks(senders: Senders): seq<Track> {
    if senders == [] then []
    else (if senders[0].Some? then [senders[0].value] else []) + LocalTracks(senders[1..])
  }

  predicate Distinct(tracks: seq<Track>) {
    forall i, j :: 0 <= i < j < |tracks| ==> tracks[i] != tracks[j]
  }

  /** hasTracksAdded: whether there is any sender at all, with a track or without. */
  predicate HasTracksAdded(senders: Senders) {
    |senders| > 0
  }

  datatype Added = Added(senders: Senders, threw: bool)

  /** addTracksToConnection; addTrack throws InvalidAccessError on a track that is being sent. */
  function AddTracks(senders: Senders, tracks: seq<Track>): Added
    decreases |tracks|
  {
    if tracks == [] then Added(senders, false)
    else if Some(tracks[0]) in senders then Added(senders, true)
    else AddTracks(senders + [Some(tracks[0])], tracks[1..])
  }

  lemma {:induction false} LocalTracksSnoc(senders: Senders, t: Track)
    ensures LocalTracks(senders + [Some(t)]) == LocalTracks(senders) + [t]
  {
    if senders != [] {
      assert (senders + [Some(t)])[1..] == senders[1..] + [Some(t)];
      LocalTracksSnoc(senders[1..], t);
    }
  }

  /** Adding tracks none of which is being sent adds all of them, once each, and never throws. */
  lemma {:induction false} AddTracksAddsAll(senders: Senders, tracks: seq<Track>)
    requires Distinct(tracks) && forall t :: t in tracks ==> Some(t) !in senders
    ensures !AddTracks(senders, tracks).threw
    ensures LocalTracks(AddTracks(senders, tracks).senders) == LocalTracks(senders) + tracks
    ensures tracks != [] || senders != [] ==> HasTracksAdded(AddTracks(senders, tracks).senders)
    decreases |tracks|
  {
    if tracks != [] {
      LocalTracksSnoc(senders, tracks[0]);
      AddTracksAddsAll(senders + [Some(tracks[0])], tracks[1..]);
      assert [tracks[0]] + tracks[1..] == tracks;
    }
  }
}
