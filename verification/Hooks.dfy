/**
 The two forms of the negotiation code, run one handler at a time: handleSDPMessage and
 createOffer of the page, and the same work split over useSignaling and useWebRTC. What is
 compared is the sequence of calls they make on the peer connection, with any call failing.
 */
module Hooks {
  import opened Wrappers
  import opened Messages
  import opened PeerConnection
  import P = Page

  datatype Call = AddTrack(track: Track) | MakeOffer | MakeAnswer | SetLocal(d: Sdp) | SetRemote(d: Sdp)

  /** A connection, the flag kept for it, the calls made on it, how many of them were awaited, and
      the descriptions handed over to be sent to the peer. */
  datatype Peer = Peer(pc: Pc, negotiating: bool, calls: seq<Call>, clock: nat, said: seq<Sdp>)

  /** What becomes of each awaited call: None is a failure. */
  type Fates = nat -> Option<P.Outcome>

  /** The activation of Page that awaits such a call. */
  function Awaiting(call: Call): P.Act
    requires !call.AddTrack?
  {
    match call
    case MakeOffer => P.Offering(None, "")
    case MakeAnswer => P.Answering(None, None)
    case SetRemote(d) => P.SettingRemote(None, None, d)
    case SetLocal(d) => if d.Offer? then P.SettingOffer(None, "", d) else P.SettingAnswer(None, None, d)
  }

  predicate Succeeds(pc: Pc, call: Call, fate: Option<P.Outcome>)
    requires !call.AddTrack?
  {
    fate.Some? && P.Succeed(pc, Awaiting(call), fate.value).Some? && P.Plausible(pc, Awaiting(call), fate.value)
  }

  /** An awaited call and its signalingstatechange events; the result says whether it succeeded. */
  function Await(x: Peer, call: Call, fates: Fates): (Peer, bool)
    requires !call.AddTrack?
  {
    var fate, y := fates(x.clock), x.(calls := x.calls + [call], clock := x.clock + 1);
    if Succeeds(x.pc, call, fate) then
      var pc := P.Succeed(x.pc, Awaiting(call), fate.value).value;
      (y.(pc := pc, negotiating := x.negotiating && !SeenStable(x.pc, pc)), true)
    else (y, false)
  }

  /** The calls of addTracksToConnection, up to one that throws. */
  function TrackCalls(senders: Senders, tracks: seq<Track>): seq<Call>
    decreases |tracks|
  {
    if tracks == [] then []
    else if Some(tracks[0]) in senders then [AddTrack(tracks[0])]
    else [AddTrack(tracks[0])] + TrackCalls(senders + [Some(tracks[0])], tracks[1..])
  }

  /** Tracks are added if there is a stream and no sender; the result says whether nothing threw. */
  function Equip(x: Peer, stream: Option<seq<Track>>): (Peer, bool) {
    if stream.None? || HasTracksAdded(x.pc.senders) then (x, true)
    else
      var added := AddTracks(x.pc.senders, stream.value);
      var calls := x.calls + TrackCalls(x.pc.senders, stream.value);
      (x.(pc := x.pc.(senders := added.senders), calls := calls), !added.threw)
  }

  function Lowered(x: Peer): Peer {
    x.(negotiating := false)
  }

  // ----- The page -----------------------------------------------------------------------------------

  /** createAnswer, setLocalDescription, and the answer goes out. */
  function Answers(x: Peer, fates: Fates): Peer {
    var (y, ok) := Await(x, MakeAnswer, fates);
    if !ok then Lowered(y)
    else
      var answer := CreateAnswer(x.pc).1;
      var (z, set_) := Await(y, SetLocal(answer), fates);
      if set_ then z.(said := z.said + [answer]) else Lowered(z)
  }

  /** handleSDPMessage, to its end. */
  function PageHears(x: Peer, stream: Option<seq<Track>>, data: Text, fates: Fates): Peer {
    if !IsSdp(data) then x
    else if data.sdp.None? then Lowered(x)
    else
      var d := data.sdp.value;
      var (y, equipped) := if d.Offer? then Equip(x, stream) else (x, true);
      if !equipped then Lowered(y)
      else
        var (z, ok) := Await(y, SetRemote(d), fates);
        if !ok then Lowered(z)
        else if d.Offer? then Answers(z.(negotiating := true), fates)
        else z
  }

  /** createOffer, to its end, with the peer id filled in. Both forms have it. */
  function Offers(x: Peer, stream: Option<seq<Track>>, fates: Fates): Peer {
    if stream.None? || x.negotiating then x
    else
      var (y, equipped) := Equip(x.(negotiating := true), stream);
      if !equipped then Lowered(y)
      else
        var (z, ok) := Await(y, MakeOffer, fates);
        if !ok then Lowered(z)
        else
          var offer := PeerConnection.CreateOffer(y.pc).1;
          var (u, set_) := Await(z, SetLocal(offer), fates);
          if set_ then u.(said := u.said + [offer]) else Lowered(u)
  }

  // ----- The hooks ----------------------------------------------------------------------------------

  /** handleOffer: whatever the description is, it is answered. */
  function HandleOffer(x: Peer, stream: Option<seq<Track>>, data: Text, fates: Fates): Peer
    requires data.Json?
  {
    var (y, equipped) := Equip(x.(negotiating := true), stream);
    if !equipped || data.sdp.None? then Lowered(y)
    else
      var (z, ok) := Await(y, SetRemote(data.sdp.value), fates);
      if ok then Answers(z, fates) else Lowered(z)
  }

  /** handleAnswer: its `catch` leaves the flag alone. */
  function HandleAnswer(x: Peer, data: Text, fates: Fates): Peer
    requires data.Json?
  {
    if data.sdp.None? then x else Await(x, SetRemote(data.sdp.value), fates).0
  }

  function HooksHear(x: Peer, stream: Option<seq<Track>>, data: Text, fates: Fates): Peer {
    match Dispatch(data)
    case ToOffer => HandleOffer(x, stream, data, fates)
    case ToAnswer => HandleAnswer(x, data, fates)
    case _ => x
  }

  // ----- Messages: the same calls -------------------------------------------------------------------

  /** The message says it is an offer exactly when its description is one. */
  predicate Consistent(data: Text) {
    IsSdp(data) ==> (IsOffer(data) <==> data.sdp.Some? && SdpType(data.sdp.value) == "offer")
  }

  lemma SdpTypes(d: Sdp)
    ensures SdpType(d) == "offer" <==> d.Offer?
  {
    assert "offer"[0] != "answer"[0] && "offer"[0] != "pranswer"[0] && "offer"[0] != "rollback"[0];
  }

  /** All but the flag. */
  predicate SameCalls(x: Peer, y: Peer) {
    x == y.(negotiating := x.negotiating)
  }

  lemma AwaitSame(x: Peer, y: Peer, call: Call, fates: Fates)
    requires SameCalls(x, y) && !call.AddTrack?
    ensures SameCalls(Await(x, call, fates).0, Await(y, call, fates).0)
    ensures Await(x, call, fates).1 == Await(y, call, fates).1
  {
  }

  lemma AnswersSame(x: Peer, y: Peer, fates: Fates)
    requires SameCalls(x, y)
    ensures SameCalls(Answers(x, fates), Answers(y, fates))
  {
    AwaitSame(x, y, MakeAnswer, fates);
    if Await(x, MakeAnswer, fates).1 {
      AwaitSame(Await(x, MakeAnswer, fates).0, Await(y, MakeAnswer, fates).0, SetLocal(CreateAnswer(x.pc).1), fates);
    }
  }

  lemma OfferSame(x: Peer, y: Peer, stream: Option<seq<Track>>, data: Text, fates: Fates)
    requires SameCalls(x, y) && IsOffer(data) && data.sdp.Some? && data.sdp.value.Offer?
    ensures SameCalls(PageHears(x, stream, data, fates), HandleOffer(y, stream, data, fates))
  {
    var (x1, y1) := (Equip(x, stream).0, Equip(y.(negotiating := true), stream).0);
    assert SameCalls(x1, y1);
    AwaitSame(x1, y1, SetRemote(data.sdp.value), fates);
    var (x2, y2) := (Await(x1, SetRemote(data.sdp.value), fates).0, Await(y1, SetRemote(data.sdp.value), fates).0);
    AnswersSame(x2.(negotiating := true), y2, fates);
  }

  /** One consistent message: whatever the two flags are and whatever fails, the same calls. */
  lemma HearSame(x: Peer, y: Peer, stream: Option<seq<Track>>, data: Text, fates: Fates)
    requires SameCalls(x, y) && Consistent(data)
    ensures SameCalls(PageHears(x, stream, data, fates), HooksHear(y, stream, data, fates))
  {
    GuardsAreExclusive(data);
    if IsSdp(data) && data.sdp.Some? {
      SdpTypes(data.sdp.value);
      if IsOffer(data) {
        OfferSame(x, y, stream, data, fates);
      } else {
        AwaitSame(x, y, SetRemote(data.sdp.value), fates);
      }
    }
  }

  /** What happens at a client: a text arrives, or connect is pressed. */
  datatype Input = Heard(text: Text) | Pressed

  function PageTakes(x: Peer, stream: Option<seq<Track>>, input: Input, fates: Fates): Peer {
    if input.Heard? then PageHears(x, stream, input.text, fates) else Offers(x, stream, fates)
  }

  function HooksTake(x: Peer, stream: Option<seq<Track>>, input: Input, fates: Fates): Peer {
    if input.Heard? then HooksHear(x, stream, input.text, fates) else Offers(x, stream, fates)
  }

  function PageRun(x: Peer, stream: Option<seq<Track>>, inputs: seq<Input>, fates: Fates): Peer {
    if inputs == [] then x
    else PageTakes(PageRun(x, stream, inputs[..|inputs| - 1], fates), stream, inputs[|inputs| - 1], fates)
  }

  function HooksRun(x: Peer, stream: Option<seq<Track>>, inputs: seq<Input>, fates: Fates): Peer {
    if inputs == [] then x
    else HooksTake(HooksRun(x, stream, inputs[..|inputs| - 1], fates), stream, inputs[|inputs| - 1], fates)
  }

  /** The split hooks refine the page: over any consistent messages, handled one at a time, with any
      call failing, both make the same calls in the same order and send the same answers. */
  lemma {:induction false} HooksRefinePage(x: Peer, stream: Option<seq<Track>>, inputs: seq<Input>, fates: Fates)
    requires forall i :: i in inputs ==> i.Heard? && Consistent(i.text)
    ensures var (p, h) := (PageRun(x, stream, inputs, fates), HooksRun(x, stream, inputs, fates));
      SameCalls(p, h) && p.calls == h.calls && p.said == h.said
  {
    if inputs != [] {
      var n := |inputs| - 1;
      HooksRefinePage(x, stream, inputs[..n], fates);
      var (p, h) := (PageRun(x, stream, inputs[..n], fates), HooksRun(x, stream, inputs[..n], fates));
      HearSame(p, h, stream, inputs[n].text, fates);
    }
  }

  /** Consistency is exactly what it takes: any other message makes the two forms differ on a new
      connection with a stream at hand. */
  lemma SameCallsIffConsistent(data: Text)
    ensures Consistent(data) <==>
      forall x, stream, fates :: PageHears(x, stream, data, fates).calls == HooksHear(x, stream, data, fates).calls
  {
    if Consistent(data) {
      forall x, stream, fates
        ensures PageHears(x, stream, data, fates).calls == HooksHear(x, stream, data, fates).calls
      {
        HearSame(x, x, stream, data, fates);
      }
    } else {
      InconsistentDiffers(data);
    }
  }

  /** The new connection and the stream of one track that tell the two forms apart. */
  lemma InconsistentDiffers(data: Text)
    requires !Consistent(data)
    ensures var x := Peer(NewPc(""), false, [], 0, []);
      PageHears(x, Some([0]), data, _ => None).calls != HooksHear(x, Some([0]), data, _ => None).calls
  {
    var x, stream := Peer(NewPc(""), false, [], 0, []), Some([0]);
    GuardsAreExclusive(data);
    if data.sdp.Some? {
      SdpTypes(data.sdp.value);
    }
    assert TrackCalls([], [0]) == [AddTrack(0)];
    assert Equip(x, stream).0.calls == [AddTrack(0)];
    assert Equip(x.(negotiating := true), stream).0.calls == [AddTrack(0)];
  }

  // ----- The flag -----------------------------------------------------------------------------------

  /** A description that comes as an answer and cannot be set, while a negotiation is under way. */
  predicate AnswerFails(x: Peer, data: Text, fates: Fates) {
    && x.negotiating && IsAnswer(data)
    && (data.sdp.None? || !Succeeds(x.pc, SetRemote(data.sdp.value), fates(x.clock)))
  }

  /** One consistent message from the same state: the two forms part exactly when an answer fails
      under way, where only the page lowers the flag. */
  lemma FlagsPartIff(x: Peer, stream: Option<seq<Track>>, data: Text, fates: Fates)
    requires Consistent(data)
    ensures PageHears(x, stream, data, fates) == HooksHear(x, stream, data, fates) <==> !AnswerFails(x, data, fates)
    ensures AnswerFails(x, data, fates) ==>
      !PageHears(x, stream, data, fates).negotiating && HooksHear(x, stream, data, fates).negotiating
  {
    GuardsAreExclusive(data);
    if IsSdp(data) && data.sdp.Some? {
      SdpTypes(data.sdp.value);
      if IsOffer(data) {
        OfferEqual(x, stream, data, fates);
      }
    }
  }

  /** Answering ends with the flag down, one way or the other. */
  lemma AnswersLower(x: Peer, fates: Fates)
    ensures !Answers(x, fates).negotiating
  {
    var y := Await(x, MakeAnswer, fates).0;
    if Await(x, MakeAnswer, fates).1 {
      AnswerSettles(y, CreateAnswer(x.pc).1, fates);
    }
  }

  lemma AnswerSettles(y: Peer, answer: Sdp, fates: Fates)
    requires answer.Answer?
    ensures Await(y, SetLocal(answer), fates).1 ==> !Await(y, SetLocal(answer), fates).0.negotiating
  {
  }

  lemma OfferEqual(x: Peer, stream: Option<seq<Track>>, data: Text, fates: Fates)
    requires IsOffer(data) && data.sdp.Some? && data.sdp.value.Offer?
    ensures PageHears(x, stream, data, fates) == HandleOffer(x, stream, data, fates)
  {
    OfferSame(x, x, stream, data, fates);
    PageOfferLowers(x, stream, data, fates);
    HooksOfferLowers(x, stream, data, fates);
  }

  lemma PageOfferLowers(x: Peer, stream: Option<seq<Track>>, data: Text, fates: Fates)
    requires IsOffer(data) && data.sdp.Some? && data.sdp.value.Offer?
    ensures !PageHears(x, stream, data, fates).negotiating
  {
    var y := Equip(x, stream).0;
    AnswersLower(Await(y, SetRemote(data.sdp.value), fates).0.(negotiating := true), fates);
  }

  lemma HooksOfferLowers(x: Peer, stream: Option<seq<Track>>, data: Text, fates: Fates)
    requires data.Json?
    ensures !HandleOffer(x, stream, data, fates).negotiating
  {
    if data.sdp.Some? {
      var y := Equip(x.(negotiating := true), stream).0;
      AnswersLower(Await(y, SetRemote(data.sdp.value), fates).0, fates);
    }
  }

  /** The two forms are in the same state after every prefix of the inputs. */
  predicate NeverPart(x: Peer, stream: Option<seq<Track>>, inputs: seq<Input>, fates: Fates) {
    forall n :: 0 <= n <= |inputs| ==> PageRun(x, stream, inputs[..n], fates) == HooksRun(x, stream, inputs[..n], fates)
  }

  /** No answer fails while a negotiation is under way. */
  predicate NoAnswerFails(x: Peer, stream: Option<seq<Track>>, inputs: seq<Input>, fates: Fates) {
    forall n :: 0 <= n < |inputs| && inputs[n].Heard? ==>
      !AnswerFails(PageRun(x, stream, inputs[..n], fates), inputs[n].text, fates)
  }

  lemma RunsSnoc(x: Peer, stream: Option<seq<Track>>, inputs: seq<Input>, n: nat, fates: Fates)
    requires n < |inputs|
    ensures PageRun(x, stream, inputs[..n + 1], fates) ==
      PageTakes(PageRun(x, stream, inputs[..n], fates), stream, inputs[n], fates)
    ensures HooksRun(x, stream, inputs[..n + 1], fates) ==
      HooksTake(HooksRun(x, stream, inputs[..n], fates), stream, inputs[n], fates)
  {
    assert inputs[..n + 1][..n] == inputs[..n];
  }

  lemma {:induction false} EqualUpTo(x: Peer, stream: Option<seq<Track>>, inputs: seq<Input>, n: nat, fates: Fates)
    requires n <= |inputs| && forall i :: i in inputs && i.Heard? ==> Consistent(i.text)
    requires NoAnswerFails(x, stream, inputs, fates)
    ensures PageRun(x, stream, inputs[..n], fates) == HooksRun(x, stream, inputs[..n], fates)
  {
    if n > 0 {
      EqualUpTo(x, stream, inputs, n - 1, fates);
      RunsSnoc(x, stream, inputs, n - 1, fates);
      if inputs[n - 1].Heard? {
        FlagsPartIff(PageRun(x, stream, inputs[..n - 1], fates), stream, inputs[n - 1].text, fates);
      }
    }
  }

  /** With presses of connect among the inputs, the two forms stay in step, flags included, exactly
      as long as no answer fails under way. */
  lemma NeverPartIff(x: Peer, stream: Option<seq<Track>>, inputs: seq<Input>, fates: Fates)
    requires forall i :: i in inputs && i.Heard? ==> Consistent(i.text)
    ensures NeverPart(x, stream, inputs, fates) <==> NoAnswerFails(x, stream, inputs, fates)
  {
    if NoAnswerFails(x, stream, inputs, fates) {
      forall n | 0 <= n <= |inputs|
        ensures PageRun(x, stream, inputs[..n], fates) == HooksRun(x, stream, inputs[..n], fates)
      {
        EqualUpTo(x, stream, inputs, n, fates);
      }
    } else {
      var n :| 0 <= n < |inputs| && inputs[n].Heard?
        && AnswerFails(PageRun(x, stream, inputs[..n], fates), inputs[n].text, fates);
      RunsSnoc(x, stream, inputs, n, fates);
      FlagsPartIff(PageRun(x, stream, inputs[..n], fates), stream, inputs[n].text, fates);
      assert PageRun(x, stream, inputs[..n], fates) == HooksRun(x, stream, inputs[..n], fates) ==>
        PageRun(x, stream, inputs[..n + 1], fates) != HooksRun(x, stream, inputs[..n + 1], fates);
    }
  }

  lemma OffersMakesCalls(x: Peer, stream: Option<seq<Track>>, fates: Fates)
    requires !x.negotiating && stream.Some?
    ensures x.calls < Offers(x, stream, fates).calls
  {
    var y, equipped := Equip(x.(negotiating := true), stream).0, Equip(x.(negotiating := true), stream).1;
    assert x.calls <= y.calls;
    if equipped {
      assert y.calls < Await(y, MakeOffer, fates).0.calls;
    } else {
      assert AddTracks(x.pc.senders, stream.value).threw;
    }
  }

  /** After an answer has failed the page can offer again, and the hooks refuse to. */
  lemma FailedAnswerBlocksHooks(x: Peer, stream: Option<seq<Track>>, data: Text, fates: Fates)
    requires Consistent(data) && AnswerFails(x, data, fates) && stream.Some?
    ensures var (p, h) := (PageHears(x, stream, data, fates), HooksHear(x, stream, data, fates));
      && p.calls == h.calls && p.calls < Offers(p, stream, fates).calls && Offers(h, stream, fates) == h
  {
    HearSame(x, x, stream, data, fates);
    FlagsPartIff(x, stream, data, fates);
    OffersMakesCalls(PageHears(x, stream, data, fates), stream, fates);
  }

  /** Two calls succeed, for one local track, and every later one fails. */
  function TwoSuccesses(k: nat): Option<P.Outcome> {
    if k < 2 then Some(P.Outcome([Some(0)], false)) else None
  }

  /** The offer of a new connection with a stream of one track. */
  lemma FirstOffer(x: Peer)
    requires x == Peer(NewPc("a"), false, [], 0, [])
    ensures var y := Offers(x, Some([0]), TwoSuccesses);
      y.pc.state == HaveLocalOffer && y.negotiating && y.clock == 2
  {
    assert AddTracks([], [0]) == Added([Some(0)], false);
    var y := Equip(x.(negotiating := true), Some([0])).0;
    assert y.pc.senders == [Some(0)] && Equip(x.(negotiating := true), Some([0])).1;
    var z := Await(y, MakeOffer, TwoSuccesses).0;
    assert Await(y, MakeOffer, TwoSuccesses).1 && z.pc == y.pc.(made := 1) && z.clock == 1;
  }

  /** From a new connection: the offer goes out, its answer cannot be set, and then the page's next
      press makes calls that the hooks' does not. */
  lemma FailedAnswerHappens(data: Text)
    requires IsAnswer(data) && data.sdp.Some? && data.sdp.value.Answer?
    ensures var x := Peer(NewPc("a"), false, [], 0, []);
      var (before, after) := ([Pressed], [Pressed, Heard(data), Pressed]);
      && AnswerFails(PageRun(x, Some([0]), before, TwoSuccesses), data, TwoSuccesses)
      && HooksRun(x, Some([0]), after, TwoSuccesses).calls < PageRun(x, Some([0]), after, TwoSuccesses).calls
  {
    var x, after := Peer(NewPc("a"), false, [], 0, []), [Pressed, Heard(data), Pressed];
    FirstOffer(x);
    RunsSnoc(x, Some([0]), after, 0, TwoSuccesses);
    RunsSnoc(x, Some([0]), after, 1, TwoSuccesses);
    RunsSnoc(x, Some([0]), after, 2, TwoSuccesses);
    assert after[..0] == [] && after[..1] == [Pressed] && after[..3] == after;
    GuardsAreExclusive(data);
    SdpTypes(data.sdp.value);
    FailedAnswerBlocksHooks(Offers(x, Some([0]), TwoSuccesses), Some([0]), data, TwoSuccesses);
  }
}
