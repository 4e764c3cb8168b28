/**
 Two pages and the relay between them: the end-to-end handshake. Both clients are registered and
 stay connected, only the caller presses connect and does so to call the callee, and other clients
 send nothing to the two. Any browser call may fail, both users type in the peer field as they like,
 and the relay, with any number of other clients, runs as it likes.
 */
module Handshake {
  import opened Wrappers
  import opened Messages
  import opened PeerConnection
  import opened HandshakePages
  import opened Wire
  import R = Relay
  import P = Page

  datatype Client = Client(addr: R.Addr, id: Id, page: P.Page, taken: nat, seen: nat) {
    function Socket(): Port {
      Port(addr, id, page.sent, taken, seen)
    }
  }

  datatype Sys = Sys(relay: R.State, caller: Client, callee: Client)

  /** The relay moves; a text goes up a socket; a text comes down a socket; a page moves. */
  datatype Event =
    | Net(l: R.Label)
    | Up(byCaller: bool)
    | Down(toCaller: bool)
    | AtCaller(e: P.Event)
    | AtCallee(e: P.Event)

  /** What the rest of the network may do. */
  predicate Outside(s: Sys, l: R.Label) {
    match l
    case Stop(a) => a != s.caller.addr && a != s.callee.addr
    case Receive(a, text) =>
      && a != s.caller.addr && a != s.callee.addr
      && ServerParse(text) != Some(s.caller.id) && ServerParse(text) != Some(s.callee.id)
    case _ => true
  }

  predicate Enabled(s: Sys, e: Event) {
    match e
    case Net(l) => Outside(s, l) && R.Enabled(s.relay, l)
    case Up(byCaller) => CanGoUp(s.relay, if byCaller then s.caller.Socket() else s.callee.Socket())
    case Down(toCaller) => CanComeDown(s.relay, if toCaller then s.caller.Socket() else s.callee.Socket())
    case AtCaller(e) =>
      CallerEvent(e) && P.Enabled(s.caller.page, e) && (e.Click? ==> PressIsFor(s.caller.page, s.callee.id))
    case AtCallee(e) => CalleeEvent(e) && P.Enabled(s.callee.page, e)
  }

  function Hear(c: Client, text: Text): Client {
    c.(page := P.Step(c.page, P.Message(text)), seen := c.seen + 1)
  }

  /** One step; a step that cannot happen changes nothing. */
  function Step(s: Sys, e: Event): Sys {
    if !Enabled(s, e) then s
    else match e
      case Net(l) => s.(relay := R.Step(s.relay, l))
      case Up(byCaller) =>
        if byCaller then
          s.(relay := GoUp(s.relay, s.caller.Socket()), caller := s.caller.(taken := s.caller.taken + 1))
        else
          s.(relay := GoUp(s.relay, s.callee.Socket()), callee := s.callee.(taken := s.callee.taken + 1))
      case Down(toCaller) =>
        if toCaller then s.(caller := Hear(s.caller, NextText(s.relay, s.caller.Socket())))
        else s.(callee := Hear(s.callee, NextText(s.relay, s.callee.Socket())))
      case AtCaller(e) => s.(caller := s.caller.(page := P.Step(s.caller.page, e)))
      case AtCallee(e) => s.(callee := s.callee.(page := P.Step(s.callee.page, e)))
  }

  function Exec(s: Sys, es: seq<Event>): Sys {
    if es == [] then s else Step(Exec(s, es[..|es| - 1]), es[|es| - 1])
  }

  // ----- The round --------------------------------------------------------------------------------

  /** How far the round is; `Lost` when the callee has failed to answer. */
  datatype Stage =
    | Idle | OfferMade | OfferSetting | OfferTravels | OfferWaits | OfferTaken
    | AnswerMaking | AnswerSetting | AnswerTravels | AnswerWaits | AnswerTaken | Lost

  function CallerOf(w: Stage): Caller {
    match w
    case Idle => CallerIdle
    case OfferMade => Creating
    case OfferSetting => Setting
    case AnswerWaits => HasAnswer
    case AnswerTaken => Finishing
    case _ => Waiting
  }

  function CalleeOf(w: Stage): Callee {
    match w
    case OfferWaits => HasOffer
    case OfferTaken => TakingOffer
    case AnswerMaking => MakingAnswer
    case AnswerSetting => GivingAnswer
    case Lost => GaveUp
    case _ => CalleeIdle
  }

  /** The callee has answered and the caller has not yet taken the answer. */
  predicate HalfDone(w: Stage) {
    w in {AnswerTravels, AnswerWaits, AnswerTaken}
  }

  /** Each side's remote description is the other's local one, and the caller's remote description
      answers exactly its own offer. */
  predicate Agreed(a: Pc, b: Pc) {
    && a.currentLocal == b.currentRemote && a.currentRemote == b.currentLocal
    && (a.currentLocal.Some? <==> a.currentRemote.Some?)
    && (a.currentRemote.Some? ==> a.currentRemote.value.Answer? && Some(a.currentRemote.value.offer) == a.currentLocal)
  }

  /** The caller has not yet set the round's offer. */
  predicate Unset(w: Stage) {
    w in {Idle, OfferMade, OfferSetting}
  }

  predicate Descriptions(a: Pc, b: Pc, w: Stage, o: Sdp, ans: Sdp) {
    && (HalfDone(w) ==> ans.Answer? && ans.offer == o && b.currentRemote == Some(o) && b.currentLocal == Some(ans))
    && (a.state == Stable ==> Agreed(a, b))
  }

  /** The two pages at stage `w` of the round of offer `o` and answer `ans`. */
  predicate Pages(p: P.Page, q: P.Page, me: Id, peer: Id, w: Stage, o: Sdp, ans: Sdp) {
    && CallerAt(p, CallerOf(w), o, ans, me, peer)
    && CalleeAt(q, CalleeOf(w), o, ans, peer, me)
    && Descriptions(p.pc, q.pc, w, o, ans)
  }

  function ToCallee(me: Id, peer: Id, w: Stage, o: Sdp): seq<Text> {
    if w == OfferTravels then [OfferText(me, peer, o)] else []
  }

  function ToCaller(me: Id, peer: Id, w: Stage, ans: Sdp): seq<Text> {
    if w == AnswerTravels then [AnswerText(peer, me, ans)] else []
  }

  ghost predicate At(s: Sys, w: Stage, o: Sdp, ans: Sdp) {
    var (me, peer) := (s.caller.id, s.callee.id);
    && Carries(s.relay, s.caller.Socket(), s.callee.Socket(), ToCallee(me, peer, w, o), ToCaller(me, peer, w, ans))
    && Pages(s.caller.page, s.callee.page, me, peer, w, o, ans)
  }

  // ----- The network's part -------------------------------------------------------------------------

  lemma NetStep(s: Sys, l: R.Label, w: Stage, o: Sdp, ans: Sdp)
    requires At(s, w, o, ans) && Enabled(s, Net(l))
    ensures At(Step(s, Net(l)), w, o, ans)
  {
    var (me, peer) := (s.caller.id, s.callee.id);
    CarriesOn(s.relay, l, s.caller.Socket(), s.callee.Socket(), ToCallee(me, peer, w, o), ToCaller(me, peer, w, ans));
  }

  lemma CallerUpStep(s: Sys, w: Stage, o: Sdp, ans: Sdp)
    requires At(s, w, o, ans) && Enabled(s, Up(true))
    ensures At(Step(s, Up(true)), w, o, ans)
  {
    var (me, peer) := (s.caller.id, s.callee.id);
    CarriesUp(s.relay, s.caller.Socket(), s.callee.Socket(), ToCallee(me, peer, w, o), ToCaller(me, peer, w, ans));
  }

  lemma CalleeUpStep(s: Sys, w: Stage, o: Sdp, ans: Sdp)
    requires At(s, w, o, ans) && Enabled(s, Up(false))
    ensures At(Step(s, Up(false)), w, o, ans)
  {
    var (me, peer) := (s.caller.id, s.callee.id);
    var (c, d) := (s.caller.Socket(), s.callee.Socket());
    CarriesBack(s.relay, c, d, ToCallee(me, peer, w, o), ToCaller(me, peer, w, ans));
    CarriesUp(s.relay, d, c, ToCaller(me, peer, w, ans), ToCallee(me, peer, w, o));
    CarriesBack(GoUp(s.relay, d), d.(taken := d.taken + 1), c, ToCaller(me, peer, w, ans), ToCallee(me, peer, w, o));
  }

  lemma CalleeDownStep(s: Sys, w: Stage, o: Sdp, ans: Sdp)
    requires At(s, w, o, ans) && Enabled(s, Down(false))
    ensures w == OfferTravels && At(Step(s, Down(false)), OfferWaits, o, ans)
  {
    var (me, peer) := (s.caller.id, s.callee.id);
    CarriesDown(s.relay, s.caller.Socket(), s.callee.Socket(), ToCallee(me, peer, w, o), ToCaller(me, peer, w, ans));
    CalleeHears(s.callee.page, o, ans, o, peer, me);
    assert Step(s, Down(false)).callee.Socket() == s.callee.Socket().(seen := s.callee.seen + 1);
  }

  lemma CallerDownStep(s: Sys, w: Stage, o: Sdp, ans: Sdp)
    requires At(s, w, o, ans) && Enabled(s, Down(true))
    ensures w == AnswerTravels && At(Step(s, Down(true)), AnswerWaits, o, ans)
  {
    var (me, peer) := (s.caller.id, s.callee.id);
    var (c, d) := (s.caller.Socket(), s.callee.Socket());
    var (toD, toC) := (ToCallee(me, peer, w, o), ToCaller(me, peer, w, ans));
    CarriesBack(s.relay, c, d, toD, toC);
    CarriesDown(s.relay, d, c, toC, toD);
    CarriesBack(s.relay, d, c.(seen := c.seen + 1), toC[1..], toD);
    CallerHears(s.caller.page, o, ans, me, peer);
    assert Step(s, Down(true)).caller.Socket() == c.(seen := c.seen + 1);
  }

  // ----- The pages' part ----------------------------------------------------------------------------

  /** The stage after `w`. */
  function After(w: Stage): Stage {
    match w
    case Idle => OfferMade
    case OfferMade => OfferSetting
    case OfferSetting => OfferTravels
    case OfferTravels => OfferWaits
    case OfferWaits => OfferTaken
    case OfferTaken => AnswerMaking
    case AnswerMaking => AnswerSetting
    case AnswerSetting => AnswerTravels
    case AnswerTravels => AnswerWaits
    case AnswerWaits => AnswerTaken
    case AnswerTaken => Idle
    case Lost => Lost
  }

  /** Where a failing call of either page leads. */
  function FailsTo(w: Stage): Stage {
    match w
    case OfferMade => Idle
    case OfferSetting => Idle
    case OfferTaken => Lost
    case AnswerMaking => Lost
    case AnswerSetting => Lost
    case AnswerTaken => Idle
    case _ => w
  }

  /** The round goes as it does when nothing fails: before its offer is set the caller is stable. */
  predicate Smooth(a: Pc, w: Stage) {
    w != Lost && (Unset(w) ==> a.state == Stable)
  }

  /** The caller becomes stable only by taking the answer, and that makes its offer current. */
  predicate Settles(a: Pc, a': Pc, w: Stage, w': Stage, o: Sdp) {
    a'.state == Stable && a.state != Stable ==> w == AnswerTaken && w' == Idle && a'.currentLocal == Some(o)
  }

  /** What the caller's page does to the round: nothing, or the next stage with offer `o'`. */
  predicate CallerMoved(
    p: P.Page, p': P.Page, q: P.Page, me: Id, peer: Id, w: Stage, o: Sdp, ans: Sdp, w': Stage, o': Sdp)
  {
    && Pages(p', q, me, peer, w', o', ans) && (w != OfferMade ==> o' == o) && Settles(p.pc, p'.pc, w, w', o)
    && (if w == OfferSetting && w' == OfferTravels then o' == o && p'.sent == p.sent + [OfferText(me, peer, o)]
        else p'.sent == p.sent && (ToCallee(me, peer, w', o') == ToCallee(me, peer, w, o)))
    && ToCaller(me, peer, w', ans) == ToCaller(me, peer, w, ans)
  }

  lemma CallerPageResolves(p: P.Page, i: nat, out: P.Outcome, q: P.Page, me: Id, peer: Id, w: Stage, o: Sdp, ans: Sdp)
    returns (o': Sdp)
    requires Pages(p, q, me, peer, w, o, ans) && P.Enabled(p, P.Resolve(i, out))
    ensures After(w) != w && w != Idle
    ensures CallerMoved(p, P.Step(p, P.Resolve(i, out)), q, me, peer, w, o, ans, After(w), o')
    ensures Smooth(p.pc, w) ==> Smooth(P.Step(p, P.Resolve(i, out)).pc, After(w))
  {
    CallerResolves(p, i, out, CallerOf(w), o, ans, me, peer);
    o' := if w == OfferMade then CreateOffer(p.pc).1 else o;
    CallerGoesOn(p, P.Step(p, P.Resolve(i, out)), q, me, peer, w, o, ans, o');
  }

  /** The caller's awaited call has succeeded, and left `p'`. */
  lemma CallerGoesOn(p: P.Page, p': P.Page, q: P.Page, me: Id, peer: Id, w: Stage, o: Sdp, ans: Sdp, o': Sdp)
    requires Pages(p, q, me, peer, w, o, ans) && w in {OfferMade, OfferSetting, AnswerTaken}
    requires CallerAt(p', CallerOf(After(w)), o', ans, me, peer) && (w != OfferMade ==> o' == o)
    requires p'.sent == if w == OfferSetting then p.sent + [OfferText(me, peer, o)] else p.sent
    requires if w == AnswerTaken then
      p'.pc.state == Stable && p'.pc.currentLocal == Some(o) && p'.pc.currentRemote == Some(ans)
    else
      && (w == OfferMade ==> p'.pc.state == p.pc.state)
      && p'.pc.currentLocal == p.pc.currentLocal && p'.pc.currentRemote == p.pc.currentRemote
    ensures CallerMoved(p, p', q, me, peer, w, o, ans, After(w), o') && (Smooth(p.pc, w) ==> Smooth(p'.pc, After(w)))
  {
    CalleeElsewhere(q, w, After(w), o, ans, o', ans, me, peer);
    assert Descriptions(p'.pc, q.pc, After(w), o', ans);
  }

  /** The callee waits for offer and answer of any round. */
  lemma CalleeElsewhere(q: P.Page, w: Stage, w': Stage, o: Sdp, ans: Sdp, o': Sdp, ans': Sdp, me: Id, peer: Id)
    requires CalleeAt(q, CalleeOf(w), o, ans, peer, me) && CalleeOf(w) == CalleeOf(w') == CalleeIdle
    requires o'.Offer? && ans'.Answer?
    ensures CalleeAt(q, CalleeOf(w'), o', ans', peer, me)
  {
  }

  /** The caller moves without touching its descriptions or its socket. */
  lemma QuietMove(p: P.Page, p': P.Page, q: P.Page, me: Id, peer: Id, w: Stage, o: Sdp, ans: Sdp, w': Stage)
    requires Pages(p, q, me, peer, w, o, ans) && SameSignaling(p, p')
    requires CallerAt(p', CallerOf(w'), o, ans, me, peer)
    requires w' == w || (w == Idle && w' == OfferMade) || (w == AnswerWaits && w' == AnswerTaken)
    ensures CallerMoved(p, p', q, me, peer, w, o, ans, w', o) && (Smooth(p.pc, w) ==> Smooth(p'.pc, w'))
  {
    assert CalleeOf(w') == CalleeOf(w);
    assert Descriptions(p'.pc, q.pc, w', o, ans);
  }

  lemma CallerPageClicks(p: P.Page, q: P.Page, me: Id, peer: Id, w: Stage, o: Sdp, ans: Sdp) returns (w': Stage)
    requires Pages(p, q, me, peer, w, o, ans) && PressIsFor(p, peer)
    ensures Smooth(p.pc, w) ==> Smooth(P.Step(p, P.Click).pc, w')
    ensures CallerMoved(p, P.Step(p, P.Click), q, me, peer, w, o, ans, w', o) && w' in {w, After(w)}
    ensures w' != w ==> w == Idle
  {
    CallerClicks(p, CallerOf(w), o, ans, me, peer);
    w' := if CallerAt(P.Step(p, P.Click), CallerOf(w), o, ans, me, peer) then w else OfferMade;
    QuietMove(p, P.Step(p, P.Click), q, me, peer, w, o, ans, w');
  }

  lemma CallerPageFails(p: P.Page, i: nat, q: P.Page, me: Id, peer: Id, w: Stage, o: Sdp, ans: Sdp)
    requires Pages(p, q, me, peer, w, o, ans) && P.Enabled(p, P.Reject(i))
    ensures FailsTo(w) != w && CallerMoved(p, P.Step(p, P.Reject(i)), q, me, peer, w, o, ans, FailsTo(w), o)
  {
    CallerFails(p, i, CallerOf(w), o, ans, me, peer);
    CalleeElsewhere(q, w, FailsTo(w), o, ans, o, ans, me, peer);
  }

  lemma CallerPageEffect(p: P.Page, q: P.Page, me: Id, peer: Id, w: Stage, o: Sdp, ans: Sdp) returns (w': Stage)
    requires Pages(p, q, me, peer, w, o, ans) && P.Enabled(p, P.RunEffect)
    ensures CallerMoved(p, P.Step(p, P.RunEffect), q, me, peer, w, o, ans, w', o)
    ensures w' != w <==> w == AnswerWaits && P.EffectActs(p)
    ensures w' in {w, After(w)} && (Smooth(p.pc, w) ==> Smooth(P.Step(p, P.RunEffect).pc, w'))
  {
    CallerEffect(p, CallerOf(w), o, ans, me, peer);
    w' := if w == AnswerWaits && P.EffectActs(p) then AnswerTaken else w;
    QuietMove(p, P.Step(p, P.RunEffect), q, me, peer, w, o, ans, w');
  }

  lemma CallerPage(p: P.Page, e: P.Event, q: P.Page, me: Id, peer: Id, w: Stage, o: Sdp, ans: Sdp)
    returns (w': Stage, o': Sdp)
    requires Pages(p, q, me, peer, w, o, ans) && CallerEvent(e) && P.Enabled(p, e)
    requires e.Click? ==> PressIsFor(p, peer)
    ensures CallerMoved(p, P.Step(p, e), q, me, peer, w, o, ans, w', o')
    ensures w' == if e.Reject? then FailsTo(w) else if w' == w then w else After(w)
    ensures w == Idle && w' != Idle ==> e.Click?
    ensures e.Resolve? || e.Reject? || (w == AnswerWaits && e.RunEffect? && P.EffectActs(p)) ==> w != Idle && w' != w
    ensures !e.Reject? && Smooth(p.pc, w) ==> Smooth(P.Step(p, e).pc, w')
  {
    w', o' := w, o;
    match e
    case Reject(i) =>
      CallerPageFails(p, i, q, me, peer, w, o, ans);
      w' := FailsTo(w);
    case Click => w' := CallerPageClicks(p, q, me, peer, w, o, ans);
    case RunEffect => w' := CallerPageEffect(p, q, me, peer, w, o, ans);
    case Resolve(i, out) =>
      o' := CallerPageResolves(p, i, out, q, me, peer, w, o, ans);
      w' := After(w);
    case _ =>
      CallerViews(p, e, CallerOf(w), o, ans, me, peer);
      QuietMove(p, P.Step(p, e), q, me, peer, w, o, ans, w);
  }

  /** The same for the callee's page, which makes the answer `ans'`. */
  predicate CalleeMoved(
    p: P.Page, q: P.Page, q': P.Page, me: Id, peer: Id, w: Stage, o: Sdp, ans: Sdp, w': Stage, ans': Sdp)
  {
    && Pages(p, q', me, peer, w', o, ans') && (Smooth(p.pc, w) && w' != Lost ==> Smooth(p.pc, w'))
    && (if w == AnswerSetting && w' == AnswerTravels then ans' == ans && q'.sent == q.sent + [AnswerText(peer, me, ans)]
        else q'.sent == q.sent && (ToCaller(me, peer, w', ans') == ToCaller(me, peer, w, ans)))
    && ToCallee(me, peer, w', o) == ToCallee(me, peer, w, o)
  }

  lemma CalleePageResolves(p: P.Page, i: nat, out: P.Outcome, q: P.Page, me: Id, peer: Id, w: Stage, o: Sdp, ans: Sdp)
    returns (ans': Sdp)
    requires Pages(p, q, me, peer, w, o, ans) && P.Enabled(q, P.Resolve(i, out))
    ensures After(w) != w && w != Idle
    ensures CalleeMoved(p, q, P.Step(q, P.Resolve(i, out)), me, peer, w, o, ans, After(w), ans')
  {
    CalleeResolves(q, i, out, CalleeOf(w), o, ans, peer, me);
    ans' := if w == AnswerMaking then Answer(q.pc.name, q.pc.made, o) else ans;
    var q' := P.Step(q, P.Resolve(i, out));
    if w == AnswerMaking {
      CalleeGoesOn(p, q, q', me, peer, AnswerMaking, o, ans, Answer(q.pc.name, q.pc.made, o));
    } else if w == AnswerSetting {
      CalleeGoesOn(p, q, q', me, peer, AnswerSetting, o, ans, ans);
    } else {
      CalleeGoesOn(p, q, q', me, peer, OfferTaken, o, ans, ans);
    }
  }

  /** The callee's awaited call has succeeded, and left `q'`. */
  lemma CalleeGoesOn(p: P.Page, q: P.Page, q': P.Page, me: Id, peer: Id, w: Stage, o: Sdp, ans: Sdp, ans': Sdp)
    requires Pages(p, q, me, peer, w, o, ans) && w in {OfferTaken, AnswerMaking, AnswerSetting}
    requires CalleeAt(q', CalleeOf(After(w)), o, ans', peer, me) && (w != AnswerMaking ==> ans' == ans)
    requires q'.sent == if w == AnswerSetting then q.sent + [AnswerText(peer, me, ans)] else q.sent
    requires w == AnswerSetting ==> q'.pc.currentLocal == Some(ans) && q'.pc.currentRemote == Some(o)
    ensures CalleeMoved(p, q, q', me, peer, w, o, ans, After(w), ans')
  {
    CallerElsewhere(p, w, After(w), o, ans, ans', me, peer);
    assert Descriptions(p.pc, q'.pc, After(w), o, ans');
  }

  lemma CalleePageFails(p: P.Page, i: nat, q: P.Page, me: Id, peer: Id, w: Stage, o: Sdp, ans: Sdp)
    requires Pages(p, q, me, peer, w, o, ans) && P.Enabled(q, P.Reject(i))
    ensures FailsTo(w) != w && w != Idle
    ensures CalleeMoved(p, q, P.Step(q, P.Reject(i)), me, peer, w, o, ans, FailsTo(w), ans)
  {
    CalleeFails(q, i, CalleeOf(w), o, ans, peer, me);
    CallerElsewhere(p, w, FailsTo(w), o, ans, ans, me, peer);
  }

  /** The caller waits for any answer to its offer. */
  lemma CallerElsewhere(p: P.Page, w: Stage, w': Stage, o: Sdp, ans: Sdp, ans': Sdp, me: Id, peer: Id)
    requires CallerAt(p, CallerOf(w), o, ans, me, peer) && CallerOf(w) == CallerOf(w') == Waiting && ans'.Answer?
    ensures CallerAt(p, CallerOf(w'), o, ans', me, peer)
  {
  }

  lemma CalleePageEffect(p: P.Page, q: P.Page, me: Id, peer: Id, w: Stage, o: Sdp, ans: Sdp) returns (w': Stage)
    requires Pages(p, q, me, peer, w, o, ans) && P.Enabled(q, P.RunEffect)
    ensures CalleeMoved(p, q, P.Step(q, P.RunEffect), me, peer, w, o, ans, w', ans)
    ensures w' != w <==> w == OfferWaits && P.EffectActs(q)
    ensures w' in {w, After(w)}
  {
    CalleeEffect(q, CalleeOf(w), o, ans, peer, me);
    w' := if w == OfferWaits && P.EffectActs(q) then OfferTaken else w;
  }

  lemma CalleePage(p: P.Page, e: P.Event, q: P.Page, me: Id, peer: Id, w: Stage, o: Sdp, ans: Sdp)
    returns (w': Stage, ans': Sdp)
    requires Pages(p, q, me, peer, w, o, ans) && CalleeEvent(e) && P.Enabled(q, e)
    ensures CalleeMoved(p, q, P.Step(q, e), me, peer, w, o, ans, w', ans')
    ensures w' == if e.Reject? then FailsTo(w) else if w' == w then w else After(w)
    ensures w == Idle ==> w' == Idle
    ensures e.Resolve? || e.Reject? || (w == OfferWaits && e.RunEffect? && P.EffectActs(q)) ==> w != Idle && w' != w
    ensures w' == Lost ==> w == Lost || e.Reject?
  {
    w', ans' := w, ans;
    match e
    case Reject(i) =>
      CalleePageFails(p, i, q, me, peer, w, o, ans);
      w' := FailsTo(w);
    case RunEffect => w' := CalleePageEffect(p, q, me, peer, w, o, ans);
    case Resolve(i, out) =>
      ans' := CalleePageResolves(p, i, out, q, me, peer, w, o, ans);
      w' := After(w);
    case _ => CalleeViews(q, e, CalleeOf(w), o, ans, peer, me);
  }

  lemma CallerStep(s: Sys, e: P.Event, w: Stage, o: Sdp, ans: Sdp) returns (w': Stage, o': Sdp)
    requires At(s, w, o, ans) && Enabled(s, AtCaller(e))
    ensures At(Step(s, AtCaller(e)), w', o', ans) && (w != OfferMade ==> o' == o)
    ensures w' == if e.Reject? then FailsTo(w) else if w' == w then w else After(w)
    ensures w == Idle && w' != Idle ==> e.Click?
    ensures e.Resolve? || e.Reject? || (w == AnswerWaits && e.RunEffect? && P.EffectActs(s.caller.page)) ==>
      w != Idle && w' != w
    ensures w' == w ==> P.Step(s.caller.page, e).sent == s.caller.page.sent
    ensures Settles(s.caller.page.pc, P.Step(s.caller.page, e).pc, w, w', o)
    ensures !e.Reject? && Smooth(s.caller.page.pc, w) ==> Smooth(P.Step(s.caller.page, e).pc, w')
  {
    w', o' := CallerPage(s.caller.page, e, s.callee.page, s.caller.id, s.callee.id, w, o, ans);
    CallerArrives(s, P.Step(s.caller.page, e), w, o, ans, w', o');
  }

  /** What the caller's page says joins the texts on their way to the callee. */
  lemma CallerArrives(s: Sys, p: P.Page, w: Stage, o: Sdp, ans: Sdp, w': Stage, o': Sdp)
    requires At(s, w, o, ans)
    requires CallerMoved(s.caller.page, p, s.callee.page, s.caller.id, s.callee.id, w, o, ans, w', o')
    ensures At(s.(caller := s.caller.(page := p)), w', o', ans)
  {
    var (me, peer) := (s.caller.id, s.callee.id);
    var said := if w == OfferSetting && w' == OfferTravels then [OfferText(me, peer, o)] else [];
    var c := s.caller.Socket();
    CarriesSaid(s.relay, c, s.callee.Socket(), ToCallee(me, peer, w, o), ToCaller(me, peer, w, ans), said);
    assert s.caller.(page := p).Socket() == c.(sent := c.sent + said);
  }

  lemma CalleeStep(s: Sys, e: P.Event, w: Stage, o: Sdp, ans: Sdp) returns (w': Stage, ans': Sdp)
    requires At(s, w, o, ans) && Enabled(s, AtCallee(e))
    ensures At(Step(s, AtCallee(e)), w', o, ans')
    ensures w' == if e.Reject? then FailsTo(w) else if w' == w then w else After(w)
    ensures w == Idle ==> w' == Idle
    ensures e.Resolve? || e.Reject? || (w == OfferWaits && e.RunEffect? && P.EffectActs(s.callee.page)) ==>
      w != Idle && w' != w
    ensures w' == w ==> P.Step(s.callee.page, e).sent == s.callee.page.sent
    ensures !e.Reject? && Smooth(s.caller.page.pc, w) ==> Smooth(s.caller.page.pc, w')
  {
    w', ans' := CalleePage(s.caller.page, e, s.callee.page, s.caller.id, s.callee.id, w, o, ans);
    CalleeArrives(s, P.Step(s.callee.page, e), w, o, ans, w', ans');
  }

  lemma CalleeArrives(s: Sys, q: P.Page, w: Stage, o: Sdp, ans: Sdp, w': Stage, ans': Sdp)
    requires At(s, w, o, ans)
    requires CalleeMoved(s.caller.page, s.callee.page, q, s.caller.id, s.callee.id, w, o, ans, w', ans')
    ensures At(s.(callee := s.callee.(page := q)), w', o, ans')
  {
    var said := if w == AnswerSetting && w' == AnswerTravels then [AnswerText(s.callee.id, s.caller.id, ans)] else [];
    CalleeSays(s, q, w, o, ans, said);
  }

  /** What the callee's page says joins the texts on their way to the caller. */
  lemma CalleeSays(s: Sys, q: P.Page, w: Stage, o: Sdp, ans: Sdp, said: seq<Text>)
    requires At(s, w, o, ans) && q.sent == s.callee.page.sent + said
    ensures var (toD, toC) := (ToCallee(s.caller.id, s.callee.id, w, o), ToCaller(s.caller.id, s.callee.id, w, ans));
      Carries(s.relay, s.caller.Socket(), s.callee.(page := q).Socket(), toD, toC + said)
  {
    var (c, d) := (s.caller.Socket(), s.callee.Socket());
    var (toD, toC) := (ToCallee(s.caller.id, s.callee.id, w, o), ToCaller(s.caller.id, s.callee.id, w, ans));
    CarriesBack(s.relay, c, d, toD, toC);
    CarriesSaid(s.relay, d, c, toC, toD, said);
    CarriesBack(s.relay, d.(sent := d.sent + said), c, toC + said, toD);
    assert s.callee.(page := q).Socket() == d.(sent := d.sent + said);
  }

  /** A browser call of one of the two pages fails. */
  predicate Fails(e: Event) {
    (e.AtCaller? && e.e.Reject?) || (e.AtCallee? && e.e.Reject?)
  }

  lemma WireStep(s: Sys, e: Event, w: Stage, o: Sdp, ans: Sdp) returns (w': Stage)
    requires At(s, w, o, ans) && Enabled(s, e) && (e.Net? || e.Up? || e.Down?)
    ensures At(Step(s, e), w', o, ans) && w' in {w, After(w)} && (w' != w ==> w in {OfferTravels, AnswerTravels})
  {
    match e
    case Net(l) => w' := w; NetStep(s, l, w, o, ans);
    case Up(byCaller) => w' := w; UpStep(s, byCaller, w, o, ans);
    case Down(toCaller) => w' := After(w); DownStep(s, toCaller, w, o, ans);
  }

  lemma UpStep(s: Sys, byCaller: bool, w: Stage, o: Sdp, ans: Sdp)
    requires At(s, w, o, ans) && Enabled(s, Up(byCaller))
    ensures At(Step(s, Up(byCaller)), w, o, ans)
  {
    if byCaller {
      CallerUpStep(s, w, o, ans);
    } else {
      CalleeUpStep(s, w, o, ans);
    }
  }

  lemma DownStep(s: Sys, toCaller: bool, w: Stage, o: Sdp, ans: Sdp)
    requires At(s, w, o, ans) && Enabled(s, Down(toCaller))
    ensures w in {OfferTravels, AnswerTravels} && At(Step(s, Down(toCaller)), After(w), o, ans)
  {
    if toCaller {
      CallerDownStep(s, w, o, ans);
    } else {
      CalleeDownStep(s, w, o, ans);
    }
  }

  /** Only its own page's steps touch a connection. */
  lemma OthersKeepPc(s: Sys, e: Event)
    ensures !Enabled(s, e) || !e.AtCaller? ==> Step(s, e).caller.page.pc == s.caller.page.pc
    ensures !Enabled(s, e) || !e.AtCallee? ==> Step(s, e).callee.page.pc == s.callee.page.pc
    ensures Enabled(s, e) && e.AtCaller? ==> Step(s, e).caller.page == P.Step(s.caller.page, e.e)
    ensures Enabled(s, e) && e.AtCallee? ==> Step(s, e).callee.page == P.Step(s.callee.page, e.e)
  {
  }

  /** What a step does to the round: nothing, the next stage, or by a failing call its end; only a
      press of connect begins a round. `a` and `a'` are the caller's connection. */
  predicate RoundMoved(a: Pc, a': Pc, e: Event, w: Stage, o: Sdp, w': Stage, o': Sdp) {
    && w' in {w, if Fails(e) then FailsTo(w) else After(w)} && (w != OfferMade ==> o' == o)
    && (w == Idle && w' != Idle ==> e == AtCaller(P.Click))
    && Settles(a, a', w, w', o)
    && (!Fails(e) && Smooth(a, w) ==> Smooth(a', w'))
  }

  lemma CallerMovesRound(s: Sys, e: Event, w: Stage, o: Sdp, ans: Sdp) returns (w': Stage, o': Sdp)
    requires At(s, w, o, ans) && Enabled(s, e) && e.AtCaller?
    ensures At(Step(s, e), w', o', ans)
    ensures RoundMoved(s.caller.page.pc, Step(s, e).caller.page.pc, e, w, o, w', o')
  {
    OthersKeepPc(s, e);
    w', o' := CallerStep(s, e.e, w, o, ans);
  }

  lemma CalleeMovesRound(s: Sys, e: Event, w: Stage, o: Sdp, ans: Sdp) returns (w': Stage, ans': Sdp)
    requires At(s, w, o, ans) && Enabled(s, e) && e.AtCallee?
    ensures At(Step(s, e), w', o, ans')
    ensures RoundMoved(s.caller.page.pc, Step(s, e).caller.page.pc, e, w, o, w', o)
  {
    OthersKeepPc(s, e);
    w', ans' := CalleeStep(s, e.e, w, o, ans);
  }

  lemma WireKeepsPc(s: Sys, e: Event)
    requires e.Net? || e.Up? || e.Down?
    ensures Step(s, e).caller.page.pc == s.caller.page.pc
  {
  }

  lemma SameConnection(a: Pc, e: Event, w: Stage, o: Sdp, w': Stage)
    requires w' in {w, After(w)} && (w' != w ==> w in {OfferTravels, AnswerTravels}) && !Fails(e)
    ensures RoundMoved(a, a, e, w, o, w', o)
  {
  }

  /** Every step leaves the round where it is, takes it to its next stage, or by a failing call to
      its end. */
  lemma StepMovesRound(s: Sys, e: Event, w: Stage, o: Sdp, ans: Sdp) returns (w': Stage, o': Sdp, ans': Sdp)
    requires At(s, w, o, ans)
    ensures At(Step(s, e), w', o', ans')
    ensures RoundMoved(s.caller.page.pc, Step(s, e).caller.page.pc, e, w, o, w', o')
  {
    w', o', ans' := w, o, ans;
    if Enabled(s, e) {
      if e.AtCaller? {
        w', o' := CallerMovesRound(s, e, w, o, ans);
      } else if e.AtCallee? {
        w', ans' := CalleeMovesRound(s, e, w, o, ans);
      } else {
        w' := WireStep(s, e, w, o, ans);
        WireKeepsPc(s, e);
        SameConnection(s.caller.page.pc, e, w, o, w');
      }
    }
  }
}
