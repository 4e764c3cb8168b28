/** The hooks useWebRTC and useSignaling as objects, each handler run to its end. */
module HookObjects {
  import opened Wrappers
  import opened Messages
  import opened PeerConnection
  import opened Hooks
  import P = Page

  /** The browser's connection; `fates` decides which awaited calls fail. */
  class Connection {
    const fates: Fates
    var pc: Pc
    var calls: seq<Call>
    var clock: nat

    constructor (name: Id, fates: Fates)
      ensures pc == NewPc(name) && calls == [] && clock == 0 && this.fates == fates
    {
      this.fates := fates;
      pc, calls, clock := NewPc(name), [], 0;
    }

    /** addTrack; false stands for an InvalidAccessError. */
    method AddTrack(track: Track) returns (ok: bool)
      modifies this
      ensures ok == (Some(track) !in old(pc).senders)
      ensures clock == old(clock) && calls == old(calls) + [Hooks.AddTrack(track)]
      ensures pc == if ok then old(pc).(senders := old(pc).senders + [Some(track)]) else old(pc)
    {
      ok := Some(track) !in pc.senders;
      calls := calls + [Hooks.AddTrack(track)];
      if ok {
        pc := pc.(senders := pc.senders + [Some(track)]);
      }
    }

    /** An awaited call; false when its promise is rejected. */
    method Request(call: Call) returns (ok: bool)
      requires !call.AddTrack?
      modifies this
      ensures calls == old(calls) + [call] && clock == old(clock) + 1
      ensures ok == Succeeds(old(pc), call, fates(old(clock)))
      ensures pc == if ok then P.Succeed(old(pc), Awaiting(call), fates(old(clock)).value).value else old(pc)
    {
      ok := Succeeds(pc, call, fates(clock));
      if ok {
        pc := P.Succeed(pc, Awaiting(call), fates(clock).value).value;
      }
      calls, clock := calls + [call], clock + 1;
    }
  }

  class UseWebRtc {
    const connection: Connection        // peerConnectionRef
    var localStream: Option<seq<Track>>
    var isNegotiating: bool
    ghost var unmarked: bool            // whether any call has been awaited with the flag down

    ghost function View(): Peer
      reads this, connection
    {
      Peer(connection.pc, isNegotiating, connection.calls, connection.clock, [])
    }

    constructor (name: Id, fates: Fates)
      ensures View() == Peer(NewPc(name), false, [], 0, []) && connection.fates == fates && localStream == None
      ensures !unmarked
    {
      connection := new Connection(name, fates);
      localStream, isNegotiating, unmarked := None, false, false;
    }

    /** The listed calls have been made, and `y` is what the handler's description leaves. */
    ghost predicate Leaves(y: Peer, result: Option<Sdp>)
      reads this, connection
    {
      View() == y.(said := []) && y.said == (if result.Some? then [result.value] else [])
    }

    /** addTracksToConnection, unless there is no stream or a sender already. */
    method AddTracks() returns (ok: bool)
      modifies connection
      ensures var (y, equipped) := Equip(old(View()), localStream);
        View() == y && ok == equipped
    {
      if localStream.None? || HasTracksAdded(connection.pc.senders) {
        return true;
      }
      var i, tracks := 0, localStream.value;
      assert tracks[0..] == tracks;
      while i < |tracks|
        invariant i <= |tracks|
        invariant connection.clock == old(connection.clock)
        invariant connection.pc == old(connection.pc).(senders := connection.pc.senders)
        invariant PeerConnection.AddTracks(connection.pc.senders, tracks[i..])
          == PeerConnection.AddTracks(old(connection.pc).senders, tracks)
        invariant connection.calls + TrackCalls(connection.pc.senders, tracks[i..])
          == old(connection.calls) + TrackCalls(old(connection.pc).senders, tracks)
      {
        assert tracks[i..][1..] == tracks[i + 1..];
        ok := connection.AddTrack(tracks[i]);
        if !ok {
          return;
        }
        i := i + 1;
      }
      return true;
    }

    /** An awaited call, and onsignalingstatechange for every state it passes through. */
    method Do(call: Call) returns (ok: bool)
      requires !call.AddTrack?
      modifies this`isNegotiating, this`unmarked, connection
      ensures var (y, succeeded) := Await(old(View()), call, connection.fates);
        View() == y && ok == succeeded
      ensures unmarked == (old(unmarked) || !old(isNegotiating))
    {
      unmarked := unmarked || !isNegotiating;
      var was := connection.pc.state;
      ok := connection.Request(call);
      if was == HaveLocalOffer && connection.pc.state == HaveRemoteOffer {
        OnSignalingStateChange(Stable);
      }
      if connection.pc.state != was {
        OnSignalingStateChange(connection.pc.state);
      }
    }

    /** onsignalingstatechange, in the state that it reads. */
    method OnSignalingStateChange(currentState: Signaling)
      modifies this`isNegotiating
      ensures isNegotiating == (old(isNegotiating) && currentState != Stable)
    {
      if currentState == Stable {
        isNegotiating := false;
      }
    }

    /** createOffer, with the flag up at both awaited calls. */
    method CreateOffer() returns (result: Option<Sdp>)
      modifies this`isNegotiating, this`unmarked, connection
      ensures unmarked == old(unmarked)
      ensures Leaves(Offers(old(View()), localStream, connection.fates), result)
    {
      if localStream.None? || isNegotiating {
        return None;
      }
      isNegotiating := true;
      var ok := AddTracks();
      if ok {
        var offer: Sdp := PeerConnection.CreateOffer(connection.pc).1;
        ok := Do(MakeOffer);
        if ok {
          ok := Do(SetLocal(offer));
          if ok {
            return Some(offer);
          }
        }
      }
      isNegotiating := false;
      return None;
    }

    /** handleOffer, with the flag up at its awaited calls, unless the browser rolls an offer of its own
        back for this one, or the description is no offer. */
    method HandleOffer(data: Text) returns (result: Option<Sdp>)
      requires data.Json?
      modifies this`isNegotiating, this`unmarked, connection
      ensures old(connection.pc).state != HaveLocalOffer && (data.sdp.Some? ==> data.sdp.value.Offer?) ==>
        unmarked == old(unmarked)
      ensures Leaves(Hooks.HandleOffer(old(View()), localStream, data, connection.fates), result)
    {
      isNegotiating := true;
      var ok := AddTracks();
      if ok && data.sdp.Some? {
        ok := Do(SetRemote(data.sdp.value));
        if ok {
          var was := connection.pc;
          ok := Do(MakeAnswer);
          if ok {
            var answer := CreateAnswer(was).1;
            ok := Do(SetLocal(answer));
            if ok {
              return Some(answer);
            }
          }
        }
      }
      isNegotiating := false;
      return None;
    }

    /** handleAnswer, with the flag as it is. */
    method HandleAnswer(data: Text)
      requires data.Json?
      modifies this`isNegotiating, this`unmarked, connection
      ensures unmarked == (old(unmarked) || (data.sdp.Some? && !old(isNegotiating)))
      ensures Leaves(Hooks.HandleAnswer(old(View()), data, connection.fates), None)
    {
      if data.sdp.Some? {
        var _ := Do(SetRemote(data.sdp.value));
      }
    }
  }

  class UseSignaling {
    var clientId: Option<Id>
    var sent: seq<Text>

    constructor ()
      ensures clientId == None && sent == []
    {
      clientId, sent := None, [];
    }

    /** ws.onmessage, with the handlers of `rtc` as its callbacks; the answer is theirs. */
    method OnMessage(text: Text, rtc: UseWebRtc) returns (answer: Option<Sdp>)
      modifies this`clientId, rtc`isNegotiating, rtc`unmarked, rtc.connection
      ensures rtc.Leaves(HooksHear(old(rtc.View()), rtc.localStream, text, rtc.connection.fates), answer)
      ensures clientId == if IsWelcome(text) then text.id else old(clientId)
    {
      answer := None;
      if IsWelcome(text) {
        clientId := text.id;
      } else if IsOffer(text) {
        answer := rtc.HandleOffer(text);
      } else if IsAnswer(text) {
        rtc.HandleAnswer(text);
      }
    }

    /** sendMessage: `from` is put in, and nothing goes out before the welcome. */
    method SendMessage(to: Id, kind: string, sdp: Sdp)
      modifies this`sent
      ensures var text := Outgoing(clientId, Some(to), kind, sdp);
        sent == if text.Some? then old(sent) + [text.value] else old(sent)
    {
      if !Truthy(clientId) {
        return;
      }
      sent := sent + [Json(Some(kind), clientId, Some(to), Some(sdp), None, None)];
    }

    /** sendOffer: once welcomed, the text reaches the addressee's offer handler. */
    method SendOffer(to: Id, sdp: Sdp)
      modifies this`sent
      ensures Truthy(clientId) ==>
        |sent| == |old(sent)| + 1 && sent[..|old(sent)|] == old(sent)
        && ServerParse(sent[|old(sent)|]) == Some(to)
        && Dispatch(sent[|old(sent)|]) == ToOffer && sent[|old(sent)|].sdp == Some(sdp)
      ensures !Truthy(clientId) ==> sent == old(sent)
    {
      if Truthy(clientId) {
        KindSurvives(clientId, to, sdp, 0);
      }
      SendMessage(to, "offer", sdp);
    }

    /** sendAnswer, likewise. */
    method SendAnswer(to: Id, sdp: Sdp)
      modifies this`sent
      ensures Truthy(clientId) ==>
        |sent| == |old(sent)| + 1 && sent[..|old(sent)|] == old(sent)
        && ServerParse(sent[|old(sent)|]) == Some(to)
        && Dispatch(sent[|old(sent)|]) == ToAnswer && sent[|old(sent)|].sdp == Some(sdp)
      ensures !Truthy(clientId) ==> sent == old(sent)
    {
      if Truthy(clientId) {
        KindSurvives(clientId, to, sdp, 0);
      }
      SendMessage(to, "answer", sdp);
    }

    /** sendCandidate, likewise. */
    method SendCandidate(to: Id, candidate: nat)
      modifies this`sent
      ensures Truthy(clientId) ==>
        |sent| == |old(sent)| + 1 && sent[..|old(sent)|] == old(sent)
        && ServerParse(sent[|old(sent)|]) == Some(to)
        && Dispatch(sent[|old(sent)|]) == ToCandidate && sent[|old(sent)|].candidate == Some(candidate)
      ensures !Truthy(clientId) ==> sent == old(sent)
    {
      if !Truthy(clientId) {
        return;
      }
      KindSurvives(clientId, to, Rollback, candidate);
      sent := sent + [Json(Some("candidate"), clientId, Some(to), None, Some(candidate), None)];
    }
  }
}
