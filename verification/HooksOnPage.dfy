/** The one-at-a-time form of the page is the await-granular page with no other activation. */
module HooksOnPage {
  import opened Wrappers
  import opened Messages
  import opened PeerConnection
  import opened Hooks
  import P = Page

  /** How many awaits an activation still has, at most. */
  function AwaitsLeft(acts: seq<P.Act>): nat {
    if acts == [] then 0
    else match acts[0]
      case SettingRemote(_, _, _) => 3
      case Answering(_, _) => 2
      case Offering(_, _) => 2
      case _ => 1
  }

  /** What becomes of the only activation's awaited call. */
  function NextEvent(p: P.Page, fate: Option<P.Outcome>): P.Event {
    if fate.Some? && P.Enabled(p, P.Resolve(0, fate.value)) then P.Resolve(0, fate.value) else P.Reject(0)
  }

  /** The page's only activation, run to its end. */
  function Settle(p: P.Page, clock: nat, fates: Fates): P.Page
    requires |p.acts| <= 1
    decreases AwaitsLeft(p.acts)
  {
    if p.acts == [] then p
    else
      var q := P.Step(p, NextEvent(p, fates(clock)));
      Settle(q, clock + 1, fates)
  }

  /** The page at an await, and the same connection, flag and clock one at a time. */
  predicate Matches(p: P.Page, x: Peer) {
    p.pc == x.pc && p.negotiating == x.negotiating
  }

  /** The texts that carry the descriptions handed over. */
  function Texts(clientId: Option<Id>, to: Option<Id>, kind: string, said: seq<Sdp>): seq<Text>
    requires Truthy(clientId)
  {
    seq(|said|, i requires 0 <= i < |said| => Outgoing(clientId, to, kind, said[i]).value)
  }

  predicate Ends(p: P.Page, q: P.Page, x: Peer, clientId: Option<Id>, to: Option<Id>, kind: string)
    requires Truthy(clientId)
  {
    q.acts == [] && Matches(q, x) && q.sent == p.sent + Texts(clientId, to, kind, x.said)
  }

  /** The activation awaits that call. */
  predicate Awaits(act: P.Act, call: Call) {
    match act
    case SettingRemote(_, _, d) => call == SetRemote(d)
    case Answering(_, _) => call == MakeAnswer
    case Offering(_, _) => call == MakeOffer
    case SettingAnswer(_, _, d) => call == SetLocal(d) && !d.Offer?
    case SettingOffer(_, _, d) => call == SetLocal(d)
  }

  lemma SameFate(pc: Pc, act: P.Act, call: Call, o: P.Outcome)
    requires Awaits(act, call)
    ensures P.Succeed(pc, act, o) == P.Succeed(pc, Awaiting(call), o)
    ensures P.Plausible(pc, act, o) <==> P.Plausible(pc, Awaiting(call), o)
  {
  }

  lemma AwaitIsStep(p: P.Page, x: Peer, call: Call, fates: Fates)
    requires |p.acts| == 1 && Matches(p, x) && Awaits(p.acts[0], call)
    ensures var (y, ok) := Await(x, call, fates);
      && P.Step(p, NextEvent(p, fates(x.clock))) ==
           (if ok then P.Continue(p, 0, y.pc) else p.(negotiating := false, acts := []))
      && (ok ==> Matches(P.Signal(p, y.pc), y))
  {
    if fates(x.clock).Some? {
      SameFate(p.pc, p.acts[0], call, fates(x.clock).value);
    }
    assert P.Without(p.acts, 0) == [];
  }

  /** One await of the page's only activation is one Await. */
  lemma OneAwait(p: P.Page, x: Peer, call: Call, fates: Fates)
    requires |p.acts| == 1 && Matches(p, x) && Awaits(p.acts[0], call)
    ensures var (y, ok) := Await(x, call, fates);
      && (ok ==> Matches(P.Signal(p, y.pc), y) && (call.MakeAnswer? ==> CanAnswer(p.pc)))
      && Settle(p, x.clock, fates) ==
           Settle(if ok then P.Continue(p, 0, y.pc) else p.(negotiating := false, acts := []), y.clock, fates)
  {
    AwaitIsStep(p, x, call, fates);
  }

  lemma SettleAnswer(p: P.Page, x: Peer, answer: Sdp, id: Option<Id>, from: Option<Id>, fates: Fates)
    requires p.acts == [P.SettingAnswer(id, from, answer)] && answer.Answer?
    requires Truthy(id) && Matches(p, x) && x.said == []
    ensures var (y, ok) := Await(x, SetLocal(answer), fates);
      Ends(p, Settle(p, x.clock, fates), if ok then y.(said := [answer]) else Lowered(y), id, from, "answer")
  {
    OneAwait(p, x, SetLocal(answer), fates);
    assert P.Without(p.acts, 0) == [];
  }

  lemma SettleAnswers(p: P.Page, x: Peer, id: Option<Id>, from: Option<Id>, fates: Fates)
    requires p.acts == [P.Answering(id, from)] && Truthy(id) && Matches(p, x) && x.said == []
    ensures Ends(p, Settle(p, x.clock, fates), Answers(x, fates), id, from, "answer")
  {
    var y, ok := Await(x, MakeAnswer, fates).0, Await(x, MakeAnswer, fates).1;
    OneAwait(p, x, MakeAnswer, fates);
    if ok {
      SettleAnswer(P.Continue(p, 0, y.pc), y, CreateAnswer(x.pc).1, id, from, fates);
    }
  }

  /** handleSDPMessage from its first `await` on. */
  lemma SettleRemote(p: P.Page, x: Peer, d: Sdp, id: Option<Id>, from: Option<Id>, fates: Fates)
    requires p.acts == [P.SettingRemote(id, from, d)] && Truthy(id) && Matches(p, x) && x.said == []
    ensures var (z, ok) := Await(x, SetRemote(d), fates);
      var y := if !ok then Lowered(z) else if d.Offer? then Answers(z.(negotiating := true), fates) else z;
      Ends(p, Settle(p, x.clock, fates), y, id, from, "answer")
  {
    var z, ok := Await(x, SetRemote(d), fates).0, Await(x, SetRemote(d), fates).1;
    OneAwait(p, x, SetRemote(d), fates);
    assert P.Without(p.acts, 0) == [];
    if ok && d.Offer? {
      SettleAnswers(P.Continue(p, 0, z.pc), z.(negotiating := true), id, from, fates);
    }
  }

  /** A message that the page handles alone ends as PageHears says. */
  lemma PageHearsAlone(p: P.Page, data: Text, clock: nat, fates: Fates)
    requires p.acts == [] && IsSdp(data) && Truthy(p.rendered.clientId)
    ensures var q := P.HandleSdp(p, data);
      && |q.acts| <= 1
      && Ends(p, Settle(q, clock, fates), PageHears(Peer(p.pc, p.negotiating, [], clock, []), p.stream, data, fates),
              p.rendered.clientId, data.from, "answer")
  {
    var x, q := Peer(p.pc, p.negotiating, [], clock, []), P.HandleSdp(p, data);
    if data.sdp.Some? {
      var (y, equipped) := if data.sdp.value.Offer? then Equip(x, p.stream) else (x, true);
      assert Matches(q, if equipped then y else Lowered(y)) && q.sent == p.sent;
      if equipped {
        SettleRemote(q, y, data.sdp.value, p.rendered.clientId, data.from, fates);
      }
    }
  }

  lemma SettleOffer(p: P.Page, x: Peer, offer: OfferSdp, id: Option<Id>, peer: string, fates: Fates)
    requires p.acts == [P.SettingOffer(id, peer, offer)] && Truthy(id) && Matches(p, x) && x.said == []
    ensures var (y, ok) := Await(x, SetLocal(offer), fates);
      Ends(p, Settle(p, x.clock, fates), if ok then y.(said := [offer]) else Lowered(y), id, Some(peer), "offer")
  {
    OneAwait(p, x, SetLocal(offer), fates);
    assert P.Without(p.acts, 0) == [];
  }

  lemma SettleOffering(p: P.Page, x: Peer, id: Option<Id>, peer: string, fates: Fates)
    requires p.acts == [P.Offering(id, peer)] && Truthy(id) && Matches(p, x) && x.said == []
    ensures var (z, ok) := Await(x, MakeOffer, fates);
      var (u, set_) := Await(z, SetLocal(CreateOffer(x.pc).1), fates);
      var y := if !ok then Lowered(z) else if set_ then u.(said := [CreateOffer(x.pc).1]) else Lowered(u);
      Ends(p, Settle(p, x.clock, fates), y, id, Some(peer), "offer")
  {
    var z, ok := Await(x, MakeOffer, fates).0, Await(x, MakeOffer, fates).1;
    OneAwait(p, x, MakeOffer, fates);
    if ok {
      SettleOffer(P.Continue(p, 0, z.pc), z, CreateOffer(x.pc).1, id, peer, fates);
    }
  }

  /** A press of connect that the page handles alone, with the fields filled in, ends as Offers says. */
  lemma PageOffersAlone(p: P.Page, clock: nat, fates: Fates)
    requires p.acts == [] && Truthy(p.rendered.clientId) && p.rendered.peerId != "" && p.rendered.ready
    ensures var q := P.Step(p, P.Click);
      && |q.acts| <= 1
      && Ends(p, Settle(q, clock, fates), Offers(Peer(p.pc, p.negotiating, [], clock, []), p.stream, fates),
              p.rendered.clientId, Some(p.rendered.peerId), "offer")
  {
    var x, q := Peer(p.pc, p.negotiating, [], clock, []), P.Step(p, P.Click);
    if p.stream.Some? && !p.negotiating {
      var y := Equip(x.(negotiating := true), p.stream).0;
      if Equip(x.(negotiating := true), p.stream).1 {
        assert q.acts == [P.Offering(p.rendered.clientId, p.rendered.peerId)] && Matches(q, y);
        SettleOffering(q, y, p.rendered.clientId, p.rendered.peerId, fates);
      }
    }
  }
}
