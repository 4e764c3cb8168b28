/**
 The texts that travel on the sockets: how a client builds them, what the server reads in them,
 and how the receiving client tells them apart.
 */
module Messages {
  import opened Wrappers

  type Id = string

  /** An RTCSessionDescriptionInit. Its SDP body is opaque: it is only known which peer made it
      and, for an answer, which offer it was made for (section 3.1 of RFC 3264). */
  datatype Sdp =
    | Offer(origin: Id, serial: nat)
    | Answer(origin: Id, serial: nat, offer: Sdp)
    | Pranswer(body: nat)
    | Rollback

  /** The `type` field of a description. */
  function SdpType(s: Sdp): string {
    match s
    case Offer(_, _) => "offer"
    case Answer(_, _, _) => "answer"
    case Pranswer(_) => "pranswer"
    case Rollback => "rollback"
  }

  /** A text as the fields that anyone looks at, or no JSON object at all. */
  datatype Text =
    | Json(
        kind: Option<string>, from: Option<Id>, to: Option<Id>,
        sdp: Option<Sdp>, candidate: Option<nat>, id: Option<Id>)
    | NotJson(raw: string)

  /** The greeting of `started`. */
  function Welcome(id: Id): Text {
    Json(Some("welcome"), None, None, None, None, Some(id))
  }

  /** Deserializing into the server's `Message`, down to the field it uses: `from` and `to` must
      be strings, `sdp` and `candidate` may be missing, and `type` is not looked at. */
  function ServerParse(t: Text): Option<Id> {
    if t.Json? && t.from.Some? then t.to else None
  }

  predicate Truthy(s: Option<string>) {
    s.Some? && s.value != ""
  }

  /** sendMessage: None when there is no client id yet and the message is dropped. */
  function Outgoing(clientId: Option<Id>, to: Option<Id>, kind: string, sdp: Sdp): Option<Text> {
    if Truthy(clientId) then Some(Json(Some(kind), clientId, to, Some(sdp), None, None)) else None
  }

  /** sendMessage with an ICE candidate, which is opaque. */
  function OutgoingCandidate(clientId: Option<Id>, to: Option<Id>, candidate: nat): Option<Text> {
    if Truthy(clientId) then Some(Json(Some("candidate"), clientId, to, None, Some(candidate), None)) else None
  }

  function OfferText(from: Id, to: Id, o: Sdp): Text {
    Json(Some("offer"), Some(from), Some(to), Some(o), None, None)
  }

  function AnswerText(from: Id, to: Id, a: Sdp): Text {
    Json(Some("answer"), Some(from), Some(to), Some(a), None, None)
  }

  predicate IsWelcome(t: Text) { t.Json? && t.kind == Some("welcome") }
  predicate IsOffer(t: Text) { t.Json? && t.kind == Some("offer") }
  predicate IsAnswer(t: Text) { t.Json? && t.kind == Some("answer") }
  predicate IsSdp(t: Text) { t.Json? && (t.kind == Some("offer") || t.kind == Some("answer")) }
  predicate IsCandidate(t: Text) { t.Json? && t.kind == Some("candidate") }

  /** Without a client id, or with an empty one, nothing is sent; the greeting brings one. */
  lemma NoIdNoText(to: Option<Id>, kind: string, sdp: Sdp, candidate: nat, id: Id)
    ensures Outgoing(None, to, kind, sdp) == Outgoing(Some(""), to, kind, sdp) == None
    ensures OutgoingCandidate(None, to, candidate) == OutgoingCandidate(Some(""), to, candidate) == None
    ensures IsWelcome(Welcome(id)) && Welcome(id).id == Some(id)
  {
  }

  /** The branch that useSignaling's onmessage takes. */
  datatype Branch = ToWelcome | ToOffer | ToAnswer | ToCandidate | Ignored

  function Dispatch(t: Text): Branch {
    if IsWelcome(t) then ToWelcome
    else if IsOffer(t) then ToOffer
    else if IsAnswer(t) then ToAnswer
    else if IsCandidate(t) then ToCandidate
    else Ignored
  }

  /** The order of the guards does not matter: at most one of them holds, and the page's coarser
      test takes exactly the offers and the answers. */
  lemma GuardsAreExclusive(t: Text)
    ensures IsWelcome(t) <==> Dispatch(t) == ToWelcome
    ensures IsOffer(t) <==> Dispatch(t) == ToOffer
    ensures IsAnswer(t) <==> Dispatch(t) == ToAnswer
    ensures IsCandidate(t) <==> Dispatch(t) == ToCandidate
    ensures IsSdp(t) <==> Dispatch(t) in {ToOffer, ToAnswer}
  {
    assert "welcome"[0] != "offer"[0] && "welcome"[0] != "answer"[0] && "welcome"[0] != "candidate"[0];
    assert "offer"[0] != "answer"[0] && "offer"[0] != "candidate"[0] && |"answer"| != |"candidate"|;
  }

  /** The server accepts a text exactly for its `from` and `to`: whatever kind, description, candidate
      and id it has or has not, and nothing that lacks one of the two. */
  lemma AcceptedIff(t: Text, to: Id)
    ensures ServerParse(t) == Some(to) <==>
      exists from: Id, kind, sdp, candidate, id :: t == Json(kind, Some(from), Some(to), sdp, candidate, id)
  {
    if ServerParse(t) == Some(to) {
      assert t == Json(t.kind, Some(t.from.value), Some(to), t.sdp, t.candidate, t.id);
    }
  }

  /** What a client sends the server accepts for the addressee, and the server's own greeting it
      would not. Forwarded as raw text, an offer, an answer or a candidate arrives as what it was
      sent as. */
  lemma KindSurvives(clientId: Option<Id>, to: Id, sdp: Sdp, candidate: nat)
    requires Truthy(clientId)
    ensures var o := Outgoing(clientId, Some(to), "offer", sdp);
      o.Some? && ServerParse(o.value) == Some(to) && Dispatch(o.value) == ToOffer && !IsAnswer(o.value)
    ensures var a := Outgoing(clientId, Some(to), "answer", sdp);
      a.Some? && ServerParse(a.value) == Some(to) && Dispatch(a.value) == ToAnswer && !IsOffer(a.value)
    ensures var c := OutgoingCandidate(clientId, Some(to), candidate);
      c.Some? && ServerParse(c.value) == Some(to) && Dispatch(c.value) == ToCandidate && !IsSdp(c.value)
    ensures forall id :: ServerParse(Welcome(id)) == None
  {
    GuardsAreExclusive(Outgoing(clientId, Some(to), "offer", sdp).value);
    GuardsAreExclusive(Outgoing(clientId, Some(to), "answer", sdp).value);
    GuardsAreExclusive(OutgoingCandidate(clientId, Some(to), candidate).value);
  }
}
