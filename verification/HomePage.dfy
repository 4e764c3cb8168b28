/**
 The page component of webrtc/src/app/page.tsx as an object: its refs and state hooks are fields,
 and each synchronous stretch of its handlers is a method, proved to be a step of Page.
 */
module HomePage {
  import opened Wrappers
  import opened Messages
  import opened PeerConnection
  import P = Page

  /** The browser's connection object. */
  class RtcPeerConnection {
    var pc: Pc

    constructor (name: Id)
      ensures pc == NewPc(name)
    {
      pc := NewPc(name);
    }

    /** addTrack; false stands for an InvalidAccessError. */
    method AddTrack(track: Track) returns (ok: bool)
      modifies this
      ensures ok == (Some(track) !in old(pc).senders)
      ensures pc == if ok then old(pc).(senders := old(pc).senders + [Some(track)]) else old(pc)
    {
      ok := Some(track) !in pc.senders;
      if ok {
        pc := pc.(senders := pc.senders + [Some(track)]);
      }
    }
  }

  /** addTracksToConnection */
  method AddTracksToConnection(connection: RtcPeerConnection, stream: seq<Track>) returns (threw: bool)
    modifies connection
    ensures var added := AddTracks(old(connection.pc).senders, stream);
      connection.pc == old(connection.pc).(senders := added.senders) && threw == added.threw
  {
    var i := 0;
    assert stream[0..] == stream;
    while i < |stream|
      invariant i <= |stream|
      invariant connection.pc == old(connection.pc).(senders := connection.pc.senders)
      invariant AddTracks(connection.pc.senders, stream[i..]) == AddTracks(old(connection.pc).senders, stream)
    {
      assert stream[i..][1..] == stream[i + 1..];
      var ok := connection.AddTrack(stream[i]);
      if !ok {
        return true;
      }
      i := i + 1;
    }
    return false;
  }

  class Home {
    const connection: RtcPeerConnection   // peerConnectionRef
    var stream: Option<seq<Track>>        // localStreamRef
    var negotiating: bool                 // isNegotiatingRef
    var rendered: P.Ui
    var next: P.Ui
    var effectDue: bool
    var arrivals: nat
    var acts: seq<P.Act>
    var sent: seq<Text>

    ghost function View(): P.Page
      reads this, connection
    {
      P.Page(rendered, next, effectDue, arrivals, stream, negotiating, connection.pc, acts, sent)
    }

    constructor (name: Id)
      ensures View() == P.NewPage(name) && fresh(connection)
    {
      connection := new RtcPeerConnection(name);
      stream, negotiating := None, false;
      rendered, next, effectDue, arrivals := P.NO_UI, P.NO_UI, false, 0;
      acts, sent := [], [];
    }

    /** React renders the page with the pending state. */
    method Render()
      requires !effectDue
      modifies this
      ensures View() == P.Step(old(View()), P.Render)
    {
      effectDue := P.DepsChanged(rendered, next);
      rendered := next;
    }

    /** ws.onmessage */
    method OnMessage(text: Text)
      modifies this
      ensures View() == P.Step(old(View()), P.Message(text))
    {
      if IsWelcome(text) {
        next := next.(clientId := text.id);
      } else if IsSdp(text) {
        next := next.(pending := Some(P.Arrival(arrivals, text)));
        arrivals := arrivals + 1;
      } else if IsCandidate(text) {
        if text.from.Some? {
          next := next.(peerId := text.from.value);
        }
      }
    }

    /** The stream from getUserMedia. */
    method OnStream(tracks: seq<Track>)
      requires stream.None? && Distinct(tracks)
      modifies this
      ensures View() == P.Step(old(View()), P.StreamReady(tracks))
    {
      stream := Some(tracks);
      next := next.(ready := true);
    }

    /** The peer id field's onChange. */
    method OnPeerInput(value: string)
      modifies this
      ensures View() == P.Step(old(View()), P.TypePeer(value))
    {
      next := next.(peerId := value);
    }

    /** sendMessage, with the client id of the closure that calls it. */
    method SendMessage(clientId: Option<Id>, to: Option<Id>, kind: string, sdp: Sdp)
      modifies this`sent
      ensures View() == P.Say(old(View()), Outgoing(clientId, to, kind, sdp))
    {
      if !Truthy(clientId) {
        return;
      }
      sent := sent + [Json(Some(kind), clientId, to, Some(sdp), None, None)];
    }

    /** createOffer, up to its first `await`. */
    method CreateOffer()
      modifies this, connection
      ensures View() == P.Step(old(View()), P.Click)
    {
      if rendered.peerId == "" {
        return;
      }
      if !rendered.ready || stream.None? {
        return;
      }
      if negotiating {
        return;
      }
      negotiating := true;
      if !HasTracksAdded(connection.pc.senders) {
        var threw := AddTracksToConnection(connection, stream.value);
        if threw {
          negotiating := false;
          return;
        }
      }
      acts := acts + [P.Offering(rendered.clientId, rendered.peerId)];
    }

    /** handleSDPMessage, up to its first `await`. */
    method HandleSdpMessage(data: Text)
      requires data.Json?
      modifies this, connection
      ensures View() == P.HandleSdp(old(View()), data)
    {
      if data.from.Some? && rendered.peerId == "" {
        next := next.(peerId := data.from.value);
      }
      if data.sdp.None? {
        negotiating := false;
        return;
      }
      if data.sdp.value.Offer? && stream.Some? && !HasTracksAdded(connection.pc.senders) {
        var threw := AddTracksToConnection(connection, stream.value);
        if threw {
          negotiating := false;
          return;
        }
      }
      acts := acts + [P.SettingRemote(rendered.clientId, data.from, data.sdp.value)];
    }

    /** The effect on clientId and pendingSDP. */
    method PendingEffect()
      requires P.Enabled(View(), P.RunEffect)
      modifies this, connection
      ensures View() == P.Step(old(View()), P.RunEffect)
    {
      if Truthy(rendered.clientId) && rendered.pending.Some? {
        HandleSdpMessage(rendered.pending.value.text);
        next := next.(pending := None);
      }
      effectDue := false;
    }

    /** onsignalingstatechange */
    method OnSignalingStateChange()
      modifies this`negotiating
      ensures negotiating == (old(negotiating) && connection.pc.state != Stable)
    {
      if connection.pc.state == Stable {
        negotiating := false;
      }
    }

    /** An awaited call succeeds: the connection changes, and an event fires whenever its state does,
        also after the rollback of an own offer that makes way for a remote one. */
    method Settle(pc: Pc)
      modifies this`negotiating, connection
      ensures View() == P.Signal(old(View()), pc)
    {
      var was := connection.pc;
      if was.state == HaveLocalOffer && pc.state == HaveRemoteOffer {
        connection.pc := Apply(was, Local, Rollback, Stable);
        OnSignalingStateChange();
      }
      connection.pc := pc;
      if connection.pc.state != was.state {
        OnSignalingStateChange();
      }
    }

    /** Activation `i` runs on from its `await` to the next one or to its end. */
    method Resume(i: nat, o: P.Outcome)
      requires P.Enabled(View(), P.Resolve(i, o))
      modifies this, connection
      ensures View() == P.Step(old(View()), P.Resolve(i, o))
    {
      var was := connection.pc;
      Settle(P.Succeed(was, acts[i], o).value);
      match acts[i]
      case Offering(clientId, peer) =>
        acts := acts[i := P.SettingOffer(clientId, peer, PeerConnection.CreateOffer(was).1)];
      case SettingOffer(clientId, peer, offer) =>
        acts := P.Without(acts, i);
        SendMessage(clientId, Some(peer), "offer", offer);
      case SettingRemote(clientId, from, sdp) =>
        if sdp.Offer? {
          negotiating := true;
          acts := acts[i := P.Answering(clientId, from)];
        } else {
          acts := P.Without(acts, i);
        }
      case Answering(clientId, from) =>
        acts := acts[i := P.SettingAnswer(clientId, from, PeerConnection.CreateAnswer(was).1)];
      case SettingAnswer(clientId, from, answer) =>
        acts := P.Without(acts, i);
        SendMessage(clientId, from, "answer", answer);
    }

    /** The awaited call of activation `i` fails: its `catch`. */
    method Fail(i: nat)
      requires i < |acts|
      modifies this
      ensures View() == P.Step(old(View()), P.Reject(i))
    {
      negotiating := false;
      acts := P.Without(acts, i);
    }
  }
}
