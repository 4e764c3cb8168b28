/**
 The client page (webrtc/src/app/page.tsx) as a state machine. Each synchronous stretch of an
 async handler is one step; a handler activation suspended at an `await` is an `Act`, and any
 number of them may be suspended at once. React's rendering is explicit: setters change `next`,
 closures and effects see `rendered`.
 */
module Page {
  import opened Wrappers
  import opened Messages
  import opened PeerConnection

  /** A received SDP message; two messages are never the same object. */
  datatype Arrival = Arrival(n: nat, text: Text)

  /** The state hooks that signaling reads. */
  datatype Ui = Ui(clientId: Option<Id>, peerId: string, pending: Option<Arrival>, ready: bool)

  /** A suspended activation, named after the call it awaits, with the values it has captured. */
  datatype Act =
    | Offering(clientId: Option<Id>, peer: string)
    | SettingOffer(clientId: Option<Id>, peer: string, offer: OfferSdp)
    | SettingRemote(clientId: Option<Id>, from: Option<Id>, sdp: Sdp)
    | Answering(clientId: Option<Id>, from: Option<Id>)
    | SettingAnswer(clientId: Option<Id>, from: Option<Id>, answer: Sdp)

  /** `negotiating` is isNegotiatingRef; `sent` the texts given to the socket. */
  datatype Page = Page(
    rendered: Ui, next: Ui, effectDue: bool, arrivals: nat,
    stream: Option<seq<Track>>, negotiating: bool, pc: Pc, acts: seq<Act>, sent: seq<Text>)

  /** What the environment decides when an awaited call succeeds: the senders that a remote offer
      or a rollback leaves, and whether the browser rolls its own offer back. */
  datatype Outcome = Outcome(senders: Senders, implicitRollback: bool)

  datatype Event =
    | Message(text: Text)
    | Render
    | RunEffect
    | TypePeer(peer: string)
    | StreamReady(tracks: seq<Track>)
    | Click
    | Resolve(i: nat, outcome: Outcome)
    | Reject(i: nat)

  const NO_UI := Ui(None, "", None, false)

  function NewPage(name: Id): Page {
    Page(NO_UI, NO_UI, false, 0, None, false, NewPc(name), [], [])
  }

  /** The state hooks of the pendingSDP effect differ from the last rendering. */
  predicate DepsChanged(was: Ui, now: Ui) {
    was.clientId != now.clientId || was.pending != now.pending
  }

  function Without(acts: seq<Act>, i: nat): seq<Act>
    requires i < |acts|
  {
    acts[..i] + acts[i + 1..]
  }

  /** sendMessage. */
  function Say(p: Page, text: Option<Text>): Page {
    if text.Some? then p.(sent := p.sent + [text.value]) else p
  }

  /** The connection changes, and onsignalingstatechange sees the states it passes through. */
  function Signal(p: Page, pc: Pc): Page {
    p.(pc := pc, negotiating := p.negotiating && !SeenStable(p.pc, pc))
  }

  /** The tracks go in unless there are senders already; `threw` for the enclosing `catch`. */
  function EnsureTracks(p: Page): (Page, bool) {
    if p.stream.None? || HasTracksAdded(p.pc.senders) then (p, false)
    else
      var added := AddTracks(p.pc.senders, p.stream.value);
      (p.(pc := p.pc.(senders := added.senders)), added.threw)
  }

  /** createOffer, up to its first `await`. */
  function ClickConnect(p: Page): Page {
    if p.rendered.peerId == "" || !p.rendered.ready || p.stream.None? || p.negotiating then p
    else
      var (q, threw) := EnsureTracks(p.(negotiating := true));
      if threw then q.(negotiating := false)
      else q.(acts := q.acts + [Offering(p.rendered.clientId, p.rendered.peerId)])
  }

  /** The sender of a message becomes the peer if the field was rendered empty. */
  function AdoptPeer(p: Page, from: Option<Id>): Page {
    if from.Some? && p.rendered.peerId == "" then p.(next := p.next.(peerId := from.value)) else p
  }

  /** handleSDPMessage, up to its first `await`. A message without a description throws. */
  function HandleSdp(p: Page, data: Text): Page
    requires data.Json?
  {
    var q := AdoptPeer(p, data.from);
    if data.sdp.None? then q.(negotiating := false)
    else
      var (r, threw) := if data.sdp.value.Offer? then EnsureTracks(q) else (q, false);
      if threw then r.(negotiating := false)
      else r.(acts := r.acts + [SettingRemote(p.rendered.clientId, data.from, data.sdp.value)])
  }

  predicate EffectActs(p: Page) {
    p.effectDue && Truthy(p.rendered.clientId) && p.rendered.pending.Some?
  }

  /** The pendingSDP effect. */
  function PendingEffect(p: Page): Page
    requires EffectActs(p) ==> p.rendered.pending.value.text.Json?
  {
    if EffectActs(p) then
      var q := HandleSdp(p, p.rendered.pending.value.text);
      q.(effectDue := false, next := q.next.(pending := None))
    else p.(effectDue := false)
  }

  /** ws.onmessage. The candidate handler is the one of the first rendering, where peerId is "". */
  function OnMessage(p: Page, text: Text): Page {
    if IsWelcome(text) then p.(next := p.next.(clientId := text.id))
    else if IsSdp(text) then
      p.(next := p.next.(pending := Some(Arrival(p.arrivals, text))), arrivals := p.arrivals + 1)
    else if IsCandidate(text) && text.from.Some? then p.(next := p.next.(peerId := text.from.value))
    else p
  }

  /** The peer connection after the call that `act` awaits succeeds; None when it cannot. */
  function Succeed(pc: Pc, act: Act, o: Outcome): Option<Pc> {
    match act
    case Offering(_, _) => Some(CreateOffer(pc).0)
    case SettingOffer(_, _, offer) => SetDescription(pc, Local, offer, false)
    case SettingRemote(_, _, sdp) =>
      var r := SetDescription(pc, Remote, sdp, o.implicitRollback);
      if r.Some? && (sdp.Offer? || sdp.Rollback?) then Some(r.value.(senders := o.senders)) else r
    case Answering(_, _) => if CanAnswer(pc) then Some(CreateAnswer(pc).0) else None
    case SettingAnswer(_, _, answer) => SetDescription(pc, Local, answer, false)
  }

  /** The continuation of activation `i` after its awaited call succeeded: state change event
      first, then the code up to the next `await` or the end. */
  function Continue(p: Page, i: nat, pc: Pc): Page
    requires i < |p.acts| && (p.acts[i].Answering? ==> CanAnswer(p.pc))
  {
    var q := Signal(p, pc);
    match p.acts[i]
    case Offering(id, peer) => q.(acts := p.acts[i := SettingOffer(id, peer, CreateOffer(p.pc).1)])
    case SettingOffer(id, peer, offer) =>
      Say(q.(acts := Without(p.acts, i)), Outgoing(id, Some(peer), "offer", offer))
    case SettingRemote(id, from, sdp) =>
      if sdp.Offer? then q.(negotiating := true, acts := p.acts[i := Answering(id, from)])
      else q.(acts := Without(p.acts, i))
    case Answering(id, from) => q.(acts := p.acts[i := SettingAnswer(id, from, CreateAnswer(p.pc).1)])
    case SettingAnswer(id, from, answer) =>
      Say(q.(acts := Without(p.acts, i)), Outgoing(id, from, "answer", answer))
  }

  /** The browser leaves the senders with local tracks alone, and a rollback adds no sender. */
  predicate Plausible(pc: Pc, act: Act, o: Outcome) {
    && LocalTracks(o.senders) == LocalTracks(pc.senders)
    && (act.SettingRemote? && act.sdp.Rollback? ==> |o.senders| <= |pc.senders|)
  }

  predicate Enabled(p: Page, e: Event) {
    match e
    case Message(_) => true
    case Render => !p.effectDue
    case RunEffect => p.effectDue && (EffectActs(p) ==> p.rendered.pending.value.text.Json?)
    case TypePeer(_) => true
    case StreamReady(tracks) => p.stream.None? && Distinct(tracks)
    case Click => true
    case Resolve(i, o) => i < |p.acts| && Succeed(p.pc, p.acts[i], o).Some? && Plausible(p.pc, p.acts[i], o)
    case Reject(i) => i < |p.acts|
  }

  /** One step; a step that cannot happen changes nothing. */
  function Step(p: Page, e: Event): Page {
    if !Enabled(p, e) then p
    else match e
      case Message(text) => OnMessage(p, text)
      case Render => p.(rendered := p.next, effectDue := DepsChanged(p.rendered, p.next))
      case RunEffect => PendingEffect(p)
      case TypePeer(peer) => p.(next := p.next.(peerId := peer))
      case StreamReady(tracks) => p.(stream := Some(tracks), next := p.next.(ready := true))
      case Click => ClickConnect(p)
      case Resolve(i, o) => Continue(p, i, Succeed(p.pc, p.acts[i], o).value)
      case Reject(i) => p.(negotiating := false, acts := Without(p.acts, i))
  }

  function Exec(p: Page, es: seq<Event>): Page {
    if es == [] then p else Step(Exec(p, es[..|es| - 1]), es[|es| - 1])
  }
}
