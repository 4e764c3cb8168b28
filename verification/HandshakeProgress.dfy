/** Every round that has begun can be completed, and nothing sets it back. */
module HandshakeProgress {
  import opened Wrappers
  import opened Messages
  import opened PeerConnection
  import opened PageInvariants
  import opened HandshakePages
  import opened Wire
  import opened WireProgress
  import opened Handshake
  import opened HandshakeRuns
  import R = Relay
  import P = Page

  /** The stage of the round, read off the pages and the two channels. */
  function StageOfPages(p: P.Page, q: P.Page, offerTravels: bool, answerTravels: bool): Stage {
    if p.acts != [] then
      (if p.acts[0].Offering? then OfferMade else if p.acts[0].SettingOffer? then OfferSetting else AnswerTaken)
    else if q.acts != [] then
      (if q.acts[0].SettingRemote? then OfferTaken else if q.acts[0].Answering? then AnswerMaking else AnswerSetting)
    else if p.next.pending.Some? then AnswerWaits
    else if q.next.pending.Some? then OfferWaits
    else if offerTravels then OfferTravels
    else if answerTravels then AnswerTravels
    else if p.negotiating then Lost
    else Idle
  }

  predicate UnderWay(w: Stage) {
    w != Idle && w != Lost
  }

  ghost function StageOf(s: Sys): Stage
    requires Connected(s)
  {
    var (c, d) := (s.caller.Socket(), s.callee.Socket());
    StageOfPages(s.caller.page, s.callee.page, Channel(s.relay, c, d) != [], Channel(s.relay, d, c) != [])
  }

  lemma PagesShowStage(p: P.Page, q: P.Page, me: Id, peer: Id, w: Stage, o: Sdp, ans: Sdp)
    requires Pages(p, q, me, peer, w, o, ans)
    ensures StageOfPages(p, q, w == OfferTravels, w == AnswerTravels) == w
  {
  }

  lemma StageIsSeen(s: Sys, w: Stage, o: Sdp, ans: Sdp)
    requires At(s, w, o, ans)
    ensures Connected(s) && StageOf(s) == w
  {
    PagesShowStage(s.caller.page, s.callee.page, s.caller.id, s.callee.id, w, o, ans);
  }

  /** How many stages are left: none at rest, and none of a round that is lost. */
  function StagesLeft(w: Stage): nat {
    match w
    case OfferMade => 10
    case OfferSetting => 9
    case OfferTravels => 8
    case OfferWaits => 7
    case OfferTaken => 6
    case AnswerMaking => 5
    case AnswerSetting => 4
    case AnswerTravels => 3
    case AnswerWaits => 2
    case AnswerTaken => 1
    case _ => 0
  }

  /** A message in the slot: 2 when an earlier effect is still due, 1 before the rendering that
      shows it, 0 when its own effect is due. */
  function Waiting(p: P.Page): Place {
    if !p.effectDue then Place(1, 0) else if p.rendered.pending.Some? then Place(0, 0) else Place(2, 0)
  }

  function PlaceIn(s: Sys, w: Stage): Place
    requires s.caller.addr < |s.relay.actors| && s.callee.addr < |s.relay.actors|
  {
    match w
    case OfferTravels => Where(s.relay, s.caller.Socket(), s.callee.Socket())
    case AnswerTravels => Where(s.relay, s.callee.Socket(), s.caller.Socket())
    case OfferWaits => Waiting(s.callee.page)
    case AnswerWaits => Waiting(s.caller.page)
    case _ => Place(0, 0)
  }

  datatype Measure = Measure(stages: nat, place: Place)

  predicate Less(m: Measure, n: Measure) {
    m.stages < n.stages || (m.stages == n.stages && Nearer(m.place, n.place))
  }

  /** What is left of the round. */
  ghost function Left(s: Sys): Measure
    requires Connected(s)
  {
    Measure(StagesLeft(StageOf(s)), PlaceIn(s, StageOf(s)))
  }

  lemma LeftIs(s: Sys, w: Stage, o: Sdp, ans: Sdp)
    requires At(s, w, o, ans)
    ensures Connected(s) && StageOf(s) == w && Left(s) == Measure(StagesLeft(w), PlaceIn(s, w))
  {
    StageIsSeen(s, w, o, ans);
  }

  // ----- Nothing sets the round back ------------------------------------------------------------------

  lemma WaitsOn(p: P.Page, e: P.Event, id: Id)
    requires PageOk(p, id) && p.next.pending.Some? && P.Step(p, e).next.pending.Some?
    requires CallerEvent(e) || CalleeEvent(e)
    ensures !Nearer(Waiting(p), Waiting(P.Step(p, e)))
    ensures P.Enabled(p, e) && (e.Render? || e.RunEffect?) ==> Nearer(Waiting(P.Step(p, e)), Waiting(p))
  {
  }

  lemma NetKeepsNear(r: R.State, l: R.Label, c: Port, d: Port, toD: seq<Text>, toC: seq<Text>)
    requires Carries(r, c, d, toD, toC) && l != R.Stop(c.addr) && l != R.Stop(d.addr)
    ensures var u := R.Step(r, l); c.addr < |u.actors| && d.addr < |u.actors|
    ensures |toD| == 1 ==> !Nearer(Where(r, c, d), Where(R.Step(r, l), c, d))
    ensures |toC| == 1 ==> !Nearer(Where(r, d, c), Where(R.Step(r, l), d, c))
  {
    SessionGoesOn(r, l, c.addr);
    SessionGoesOn(r, l, d.addr);
    CarriesBack(r, c, d, toD, toC);
    if |toD| == 1 {
      NeverFarther(r, l, c, d, toD[0], toC);
    }
    if |toC| == 1 {
      NeverFarther(r, l, d, c, toC[0], toD);
    }
  }

  lemma NetNeverSetsBack(s: Sys, l: R.Label, w: Stage, o: Sdp, ans: Sdp)
    requires At(s, w, o, ans) && Enabled(s, Net(l))
    ensures var u := Step(s, Net(l));
      && u.caller.addr < |u.relay.actors| && u.callee.addr < |u.relay.actors|
      && !Nearer(PlaceIn(s, w), PlaceIn(u, w))
  {
    var (c, d) := (s.caller.Socket(), s.callee.Socket());
    var (toD, toC) := (ToCallee(c.id, d.id, w, o), ToCaller(c.id, d.id, w, ans));
    assert (w == OfferTravels ==> |toD| == 1) && (w == AnswerTravels ==> |toC| == 1);
    NetKeepsNear(s.relay, l, c, d, toD, toC);
    assert Step(s, Net(l)) == s.(relay := R.Step(s.relay, l));
  }

  lemma OfferGoesUp(s: Sys, w: Stage, o: Sdp, ans: Sdp)
    requires At(s, w, o, ans) && Enabled(s, Up(true))
    ensures w == OfferTravels
    ensures var u := Step(s, Up(true)); At(u, w, o, ans) && Nearer(PlaceIn(u, w), PlaceIn(s, w))
  {
    var (c, d) := (s.caller.Socket(), s.callee.Socket());
    assert c.sent[c.taken..] != [];
    CallerUpStep(s, w, o, ans);
    UpBringsNearer(s.relay, c, d, OfferText(c.id, d.id, o), []);
  }

  lemma AnswerGoesUp(s: Sys, w: Stage, o: Sdp, ans: Sdp)
    requires At(s, w, o, ans) && Enabled(s, Up(false))
    ensures w == AnswerTravels
    ensures var u := Step(s, Up(false)); At(u, w, o, ans) && Nearer(PlaceIn(u, w), PlaceIn(s, w))
  {
    var (c, d) := (s.caller.Socket(), s.callee.Socket());
    OnlyAnswerIsUp(s, w, o, ans);
    CalleeUpStep(s, w, o, ans);
    CarriesBack(s.relay, c, d, [], [AnswerText(d.id, c.id, ans)]);
    UpBringsNearer(s.relay, d, c, AnswerText(d.id, c.id, ans), []);
  }

  lemma OnlyAnswerIsUp(s: Sys, w: Stage, o: Sdp, ans: Sdp)
    requires At(s, w, o, ans) && CanGoUp(s.relay, s.callee.Socket())
    ensures w == AnswerTravels
  {
    var d := s.callee.Socket();
    assert d.sent[d.taken..] != [];
  }

  /** Only the offer or the answer goes up, and that brings it nearer. */
  lemma UpAdvances(s: Sys, byCaller: bool, w: Stage, o: Sdp, ans: Sdp)
    requires At(s, w, o, ans) && Enabled(s, Up(byCaller))
    ensures w == if byCaller then OfferTravels else AnswerTravels
    ensures var u := Step(s, Up(byCaller));
      At(u, w, o, ans) && Nearer(PlaceIn(u, w), PlaceIn(s, w))
  {
    if byCaller {
      OfferGoesUp(s, w, o, ans);
    } else {
      AnswerGoesUp(s, w, o, ans);
    }
  }

  lemma CallerWaitsOn(s: Sys, e: P.Event, w: Stage, o: Sdp, ans: Sdp, o': Sdp)
    requires At(s, w, o, ans) && Enabled(s, AtCaller(e)) && At(Step(s, AtCaller(e)), w, o', ans)
    requires Step(s, AtCaller(e)).caller.page.sent == s.caller.page.sent
    ensures !Nearer(PlaceIn(s, w), PlaceIn(Step(s, AtCaller(e)), w))
  {
    if w == AnswerWaits {
      WaitsOn(s.caller.page, e, s.caller.id);
    }
  }

  lemma CallerNeverSetsBack(s: Sys, e: P.Event, w: Stage, o: Sdp, ans: Sdp)
    requires At(s, w, o, ans) && Enabled(s, AtCaller(e))
    requires var u := Step(s, AtCaller(e)); Connected(u) && StageOf(u) == w
    ensures !Nearer(PlaceIn(s, w), PlaceIn(Step(s, AtCaller(e)), w))
  {
    var w', o' := CallerStep(s, e, w, o, ans);
    StageIsSeen(Step(s, AtCaller(e)), w', o', ans);
    CallerWaitsOn(s, e, w, o, ans, o');
  }

  lemma CalleeWaitsOn(s: Sys, e: P.Event, w: Stage, o: Sdp, ans: Sdp, ans': Sdp)
    requires At(s, w, o, ans) && Enabled(s, AtCallee(e)) && At(Step(s, AtCallee(e)), w, o, ans')
    requires Step(s, AtCallee(e)).callee.page.sent == s.callee.page.sent
    ensures !Nearer(PlaceIn(s, w), PlaceIn(Step(s, AtCallee(e)), w))
  {
    if w == OfferWaits {
      WaitsOn(s.callee.page, e, s.callee.id);
    }
  }

  lemma CalleeNeverSetsBack(s: Sys, e: P.Event, w: Stage, o: Sdp, ans: Sdp)
    requires At(s, w, o, ans) && Enabled(s, AtCallee(e))
    requires var u := Step(s, AtCallee(e)); Connected(u) && StageOf(u) == w
    ensures !Nearer(PlaceIn(s, w), PlaceIn(Step(s, AtCallee(e)), w))
  {
    var w', ans' := CalleeStep(s, e, w, o, ans);
    StageIsSeen(Step(s, AtCallee(e)), w', o, ans');
    CalleeWaitsOn(s, e, w, o, ans, ans');
  }

  lemma DownTakesOn(s: Sys, toCaller: bool, w: Stage, o: Sdp, ans: Sdp)
    requires At(s, w, o, ans) && Enabled(s, Down(toCaller))
    ensures var u := Step(s, Down(toCaller)); Connected(u) && StageOf(u) != w
  {
    DownStep(s, toCaller, w, o, ans);
    StageIsSeen(Step(s, Down(toCaller)), After(w), o, ans);
  }

  /** A step that leaves the round at its stage does not set its message back. */
  lemma NeverSetBack(s: Sys, e: Event, w: Stage, o: Sdp, ans: Sdp)
    requires At(s, w, o, ans) && Connected(Step(s, e)) && StageOf(Step(s, e)) == w
    ensures !Nearer(PlaceIn(s, w), PlaceIn(Step(s, e), w))
  {
    if Enabled(s, e) {
      match e
      case Net(l) => NetNeverSetsBack(s, l, w, o, ans);
      case Up(byCaller) => UpAdvances(s, byCaller, w, o, ans);
      case Down(toCaller) => DownTakesOn(s, toCaller, w, o, ans);
      case AtCaller(a) => CallerNeverSetsBack(s, a, w, o, ans);
      case AtCallee(a) => CalleeNeverSetsBack(s, a, w, o, ans);
    }
  }

  lemma StepNeverSetsBack(s: Sys, e: Event, w: Stage, o: Sdp, ans: Sdp) returns (w': Stage, o': Sdp, ans': Sdp)
    requires At(s, w, o, ans)
    ensures At(Step(s, e), w', o', ans')
    ensures RoundMoved(s.caller.page.pc, Step(s, e).caller.page.pc, e, w, o, w', o')
    ensures w' == w ==> !Nearer(PlaceIn(s, w), PlaceIn(Step(s, e), w))
  {
    w', o', ans' := StepMovesRound(s, e, w, o, ans);
    StageIsSeen(Step(s, e), w', o', ans');
    if w' == w {
      NeverSetBack(s, e, w, o, ans);
    }
  }

  lemma LeftCompares(w: Stage, w': Stage, a: Place, b: Place)
    requires w' in {w, After(w), FailsTo(w)} && (w' == w ==> !Nearer(a, b))
    ensures Less(Measure(StagesLeft(w), a), Measure(StagesLeft(w'), b)) ==> w == Idle && w' == OfferMade
  {
  }

  lemma OneStepBack(t: Sys, e: Event, w: Stage, o: Sdp, ans: Sdp)
    requires At(t, w, o, ans)
    ensures var u := Step(t, e);
      && Connected(t) && Connected(u)
      && (Less(Left(t), Left(u)) ==> StageOf(t) == Idle && StageOf(u) == OfferMade && e == AtCaller(P.Click))
  {
    var u := Step(t, e);
    var w', o', ans' := StepNeverSetsBack(t, e, w, o, ans);
    LeftIs(t, w, o, ans);
    LeftIs(u, w', o', ans');
    LeftCompares(w, w', PlaceIn(t, w), PlaceIn(u, w'));
  }

  /** In every run what is left of the round never grows, except that a press of connect begins a
      new one. */
  lemma NothingSetsBack(trace: seq<Sys>, es: seq<Event>, n: nat)
    requires Run(trace, es) && n < |es|
    ensures Connected(trace[n]) && Connected(trace[n + 1])
    ensures Less(Left(trace[n]), Left(trace[n + 1])) ==>
      StageOf(trace[n]) == Idle && StageOf(trace[n + 1]) == OfferMade && es[n] == AtCaller(P.Click)
  {
    var w, o, ans := RunsGoRound(trace, es, n);
    assert trace[n + 1] == Step(trace[n], es[n]);
    OneStepBack(trace[n], es[n], w, o, ans);
  }

  // ----- Something takes the round on -----------------------------------------------------------------

  /** An awaited call that succeeds and leaves the senders alone. */
  function Success(p: P.Page): P.Event {
    P.Resolve(0, P.Outcome(p.pc.senders, false))
  }

  lemma CallerCanResolve(p: P.Page, q: P.Page, me: Id, peer: Id, w: Stage, o: Sdp, ans: Sdp)
    requires Pages(p, q, me, peer, w, o, ans) && w in {OfferMade, OfferSetting, AnswerTaken}
    ensures P.Enabled(p, Success(p))
  {
  }

  lemma CalleeCanResolve(p: P.Page, q: P.Page, me: Id, peer: Id, w: Stage, o: Sdp, ans: Sdp)
    requires Pages(p, q, me, peer, w, o, ans) && w in {OfferTaken, AnswerMaking, AnswerSetting}
    ensures P.Enabled(q, Success(q))
  {
  }

  function NextOnWire(place: Place, byCaller: bool, to: R.Addr): Event {
    if place.hop == 3 then Up(byCaller)
    else if place.hop == 2 then Net(R.ServerHandle)
    else if place.hop == 1 then Net(R.SessionHandle(to))
    else Down(!byCaller)
  }

  function NextInSlot(place: Place): P.Event {
    if place.hop == 1 then P.Render else P.RunEffect
  }

  /** The caller awaits a call of its browser. */
  predicate CallerAwaits(w: Stage) {
    w in {OfferMade, OfferSetting, AnswerTaken}
  }

  /** Whose turn it is. */
  function Turn(s: Sys, w: Stage): Event
    requires s.caller.addr < |s.relay.actors| && s.callee.addr < |s.relay.actors| && UnderWay(w)
  {
    match w
    case OfferTravels => NextOnWire(PlaceIn(s, w), true, s.callee.addr)
    case AnswerTravels => NextOnWire(PlaceIn(s, w), false, s.caller.addr)
    case OfferWaits => AtCallee(NextInSlot(PlaceIn(s, w)))
    case AnswerWaits => AtCaller(NextInSlot(PlaceIn(s, w)))
    case _ => if CallerAwaits(w) then AtCaller(Success(s.caller.page)) else AtCallee(Success(s.callee.page))
  }

  ghost predicate InRound(s: Sys) {
    exists w, o, ans :: At(s, w, o, ans)
  }

  /** The step can be taken, and leaves less of the round. */
  ghost predicate Advances(s: Sys, e: Event) {
    && Enabled(s, e) && InRound(Step(s, e))
    && Connected(s) && Connected(Step(s, e)) && Less(Left(Step(s, e)), Left(s))
  }

  lemma LeftDrops(s: Sys, e: Event, w: Stage, o: Sdp, ans: Sdp, w': Stage, o': Sdp, ans': Sdp)
    requires At(s, w, o, ans) && Enabled(s, e) && At(Step(s, e), w', o', ans') && UnderWay(w)
    requires (w' in {After(w), FailsTo(w)} && w' != w) || (w' == w && Nearer(PlaceIn(Step(s, e), w), PlaceIn(s, w)))
    ensures Advances(s, e)
  {
    var t := Step(s, e);
    LeftIs(s, w, o, ans);
    LeftIs(t, w', o', ans');
    AfterIsLess(w, w', PlaceIn(s, w), PlaceIn(t, w'));
    assert InRound(t);
  }

  lemma AfterIsLess(w: Stage, w': Stage, a: Place, b: Place)
    requires UnderWay(w) && ((w' in {After(w), FailsTo(w)} && w' != w) || (w' == w && Nearer(b, a)))
    ensures Less(Measure(StagesLeft(w'), b), Measure(StagesLeft(w), a))
  {
  }

  lemma OfferOnWire(s: Sys, e: Event, o: Sdp, ans: Sdp)
    requires At(s, OfferTravels, o, ans) && PlaceIn(s, OfferTravels).hop in {1, 2} && e == Turn(s, OfferTravels)
    ensures Advances(s, e)
  {
    var (c, d) := (s.caller.Socket(), s.callee.Socket());
    if PlaceIn(s, OfferTravels).hop == 2 {
      ServerBringsNearer(s.relay, c, d, OfferText(c.id, d.id, o), []);
    } else {
      SessionBringsNearer(s.relay, c, d, OfferText(c.id, d.id, o), []);
    }
    NetStep(s, e.l, OfferTravels, o, ans);
    LeftDrops(s, e, OfferTravels, o, ans, OfferTravels, o, ans);
  }

  lemma AnswerOnWire(s: Sys, e: Event, o: Sdp, ans: Sdp)
    requires At(s, AnswerTravels, o, ans) && PlaceIn(s, AnswerTravels).hop in {1, 2} && e == Turn(s, AnswerTravels)
    ensures Advances(s, e)
  {
    var (c, d) := (s.caller.Socket(), s.callee.Socket());
    CarriesBack(s.relay, c, d, [], [AnswerText(d.id, c.id, ans)]);
    if PlaceIn(s, AnswerTravels).hop == 2 {
      ServerBringsNearer(s.relay, d, c, AnswerText(d.id, c.id, ans), []);
    } else {
      SessionBringsNearer(s.relay, d, c, AnswerText(d.id, c.id, ans), []);
    }
    NetStep(s, e.l, AnswerTravels, o, ans);
    LeftDrops(s, e, AnswerTravels, o, ans, AnswerTravels, o, ans);
  }

  lemma OfferUpTurn(s: Sys, o: Sdp, ans: Sdp)
    requires At(s, OfferTravels, o, ans) && PlaceIn(s, OfferTravels).hop == 3
    ensures Advances(s, Up(true))
  {
    OfferGoesUp(s, OfferTravels, o, ans);
    LeftDrops(s, Up(true), OfferTravels, o, ans, OfferTravels, o, ans);
  }

  lemma AnswerUpTurn(s: Sys, o: Sdp, ans: Sdp)
    requires At(s, AnswerTravels, o, ans) && PlaceIn(s, AnswerTravels).hop == 3
    ensures Advances(s, Up(false))
  {
    AnswerGoesUp(s, AnswerTravels, o, ans);
    LeftDrops(s, Up(false), AnswerTravels, o, ans, AnswerTravels, o, ans);
  }

  lemma OfferDownTurn(s: Sys, o: Sdp, ans: Sdp)
    requires At(s, OfferTravels, o, ans) && PlaceIn(s, OfferTravels).hop == 0
    ensures Advances(s, Down(false))
  {
    CalleeDownStep(s, OfferTravels, o, ans);
    LeftDrops(s, Down(false), OfferTravels, o, ans, OfferWaits, o, ans);
  }

  lemma AnswerDownTurn(s: Sys, o: Sdp, ans: Sdp)
    requires At(s, AnswerTravels, o, ans) && PlaceIn(s, AnswerTravels).hop == 0
    ensures Advances(s, Down(true))
  {
    CallerDownStep(s, AnswerTravels, o, ans);
    LeftDrops(s, Down(true), AnswerTravels, o, ans, AnswerWaits, o, ans);
  }

  lemma OfferTurn(s: Sys, e: Event, o: Sdp, ans: Sdp)
    requires At(s, OfferTravels, o, ans) && e == Turn(s, OfferTravels)
    ensures Advances(s, e)
  {
    var hop := PlaceIn(s, OfferTravels).hop;
    if hop == 3 {
      assert e == Up(true);
      OfferUpTurn(s, o, ans);
    } else if hop == 0 {
      assert e == Down(false);
      OfferDownTurn(s, o, ans);
    } else {
      OfferOnWire(s, e, o, ans);
    }
  }

  lemma AnswerTurn(s: Sys, e: Event, o: Sdp, ans: Sdp)
    requires At(s, AnswerTravels, o, ans) && e == Turn(s, AnswerTravels)
    ensures Advances(s, e)
  {
    var hop := PlaceIn(s, AnswerTravels).hop;
    if hop == 3 {
      assert e == Up(false);
      AnswerUpTurn(s, o, ans);
    } else if hop == 0 {
      assert e == Down(true);
      AnswerDownTurn(s, o, ans);
    } else {
      AnswerOnWire(s, e, o, ans);
    }
  }

  lemma SlotTurn(p: P.Page, id: Id)
    requires PageOk(p, id) && p.next.pending.Some?
    ensures P.Enabled(p, NextInSlot(Waiting(p)))
    ensures Waiting(p).hop == 0 ==> P.EffectActs(p)
    ensures Waiting(p).hop != 0 ==> P.Step(p, NextInSlot(Waiting(p))).next.pending == p.next.pending
  {
  }

  /** A step that settles the awaited call, or brings the message in the slot on. */
  predicate BringsOn(p: P.Page, e: P.Event) {
    e.Resolve? || (p.next.pending.Some? && e == NextInSlot(Waiting(p)))
  }

  lemma CallerAdvances(s: Sys, e: P.Event, w: Stage, o: Sdp, ans: Sdp)
    requires At(s, w, o, ans) && w in {OfferMade, OfferSetting, AnswerWaits, AnswerTaken}
    requires Enabled(s, AtCaller(e)) && BringsOn(s.caller.page, e)
    ensures Advances(s, AtCaller(e))
  {
    var w', o' := CallerStep(s, e, w, o, ans);
    if w' == w {
      WaitsOn(s.caller.page, e, s.caller.id);
    }
    LeftDrops(s, AtCaller(e), w, o, ans, w', o', ans);
  }

  lemma CallerCallTurn(s: Sys, w: Stage, o: Sdp, ans: Sdp)
    requires At(s, w, o, ans) && CallerAwaits(w)
    ensures Advances(s, AtCaller(Success(s.caller.page)))
  {
    CallerCanResolve(s.caller.page, s.callee.page, s.caller.id, s.callee.id, w, o, ans);
    CallerAdvances(s, Success(s.caller.page), w, o, ans);
  }

  lemma CallerSlotTurn(s: Sys, o: Sdp, ans: Sdp)
    requires At(s, AnswerWaits, o, ans)
    ensures Advances(s, AtCaller(NextInSlot(Waiting(s.caller.page))))
  {
    SlotTurn(s.caller.page, s.caller.id);
    CallerAdvances(s, NextInSlot(Waiting(s.caller.page)), AnswerWaits, o, ans);
  }

  lemma CalleeAdvances(s: Sys, e: P.Event, w: Stage, o: Sdp, ans: Sdp)
    requires At(s, w, o, ans) && w in {OfferWaits, OfferTaken, AnswerMaking, AnswerSetting}
    requires Enabled(s, AtCallee(e)) && BringsOn(s.callee.page, e)
    ensures Advances(s, AtCallee(e))
  {
    var w', ans' := CalleeStep(s, e, w, o, ans);
    if w' == w {
      WaitsOn(s.callee.page, e, s.callee.id);
    }
    LeftDrops(s, AtCallee(e), w, o, ans, w', o, ans');
  }

  lemma CalleeCallTurn(s: Sys, w: Stage, o: Sdp, ans: Sdp)
    requires At(s, w, o, ans) && w in {OfferTaken, AnswerMaking, AnswerSetting}
    ensures Advances(s, AtCallee(Success(s.callee.page)))
  {
    CalleeCanResolve(s.caller.page, s.callee.page, s.caller.id, s.callee.id, w, o, ans);
    CalleeAdvances(s, Success(s.callee.page), w, o, ans);
  }

  lemma CalleeSlotTurn(s: Sys, o: Sdp, ans: Sdp)
    requires At(s, OfferWaits, o, ans)
    ensures Advances(s, AtCallee(NextInSlot(Waiting(s.callee.page))))
  {
    SlotTurn(s.callee.page, s.callee.id);
    CalleeAdvances(s, NextInSlot(Waiting(s.callee.page)), OfferWaits, o, ans);
  }

  lemma StageTurn(s: Sys, e: Event, w: Stage, o: Sdp, ans: Sdp)
    requires At(s, w, o, ans) && UnderWay(w) && e == Turn(s, w)
    ensures Advances(s, e)
  {
    if w == OfferTravels {
      OfferTurn(s, e, o, ans);
    } else if w == AnswerTravels {
      AnswerTurn(s, e, o, ans);
    } else if w == OfferWaits {
      CalleeSlotTurn(s, o, ans);
    } else if w == AnswerWaits {
      CallerSlotTurn(s, o, ans);
    } else if CallerAwaits(w) {
      CallerCallTurn(s, w, o, ans);
    } else {
      CalleeCallTurn(s, w, o, ans);
    }
  }

  /** Someone can always move, and that leaves less of the round. */
  lemma TurnAdvances(s: Sys)
    requires InRound(s) && Connected(s) && UnderWay(StageOf(s))
    ensures Advances(s, Turn(s, StageOf(s)))
  {
    var w, o, ans :| At(s, w, o, ans);
    StageIsSeen(s, w, o, ans);
    StageTurn(s, Turn(s, StageOf(s)), w, o, ans);
  }

  // ----- What a round is owed ---------------------------------------------------------------------------

  /** The round's offer is set and on its way to be answered. */
  predicate OfferOut(w: Stage) {
    UnderWay(w) && !Unset(w)
  }

  /** The caller's offer, once out, is the one that becomes current. */
  ghost predicate Fulfils(was: Sys, now: Sys)
    requires Connected(was)
  {
    var (a, b) := (was.caller.page.pc, now.caller.page.pc);
    && b.state == Stable && b.currentLocal.Some?
    && (OfferOut(StageOf(was)) ==> b.currentLocal == a.pendingLocal)
  }

  /** `t` comes later in the round that is under way in `s`, or is where that round has ended. */
  ghost predicate Owes(s: Sys, t: Sys)
    requires Connected(s) && Connected(t)
  {
    var (a, b) := (s.caller.page.pc, t.caller.page.pc);
    && StageOf(t) != Lost
    && (if StageOf(t) == Idle then Fulfils(s, t)
        else OfferOut(StageOf(s)) ==> OfferOut(StageOf(t)) && b.pendingLocal == a.pendingLocal)
  }

  lemma OwesOn(s: Sys, t: Sys, u: Sys)
    requires Connected(s) && Connected(t) && Connected(u)
    requires UnderWay(StageOf(t)) && Owes(s, t) && Owes(t, u)
    ensures Owes(s, u)
  {
  }

  /** No step but a failing call makes a round under way forget its offer. */
  lemma StepOwes(s: Sys, e: Event, w: Stage, o: Sdp, ans: Sdp, w': Stage, o': Sdp, ans': Sdp)
    requires At(s, w, o, ans) && At(Step(s, e), w', o', ans') && UnderWay(w)
    requires RoundMoved(s.caller.page.pc, Step(s, e).caller.page.pc, e, w, o, w', o') && !Fails(e)
    ensures Connected(s) && Connected(Step(s, e)) && Owes(s, Step(s, e))
  {
    var t := Step(s, e);
    StageIsSeen(s, w, o, ans);
    StageIsSeen(t, w', o', ans');
    CallerStability(s.caller.page, s.callee.page, s.caller.id, s.callee.id, w, o, ans);
    CallerStability(t.caller.page, t.callee.page, t.caller.id, t.callee.id, w', o', ans');
    OffersMatch(s.caller.page.pc, t.caller.page.pc, e, w, o, w', o');
  }

  lemma OffersMatch(a: Pc, b: Pc, e: Event, w: Stage, o: Sdp, w': Stage, o': Sdp)
    requires RoundMoved(a, b, e, w, o, w', o') && !Fails(e) && UnderWay(w)
    requires !Unset(w) ==> a.state != Stable && a.pendingLocal == Some(o)
    requires !Unset(w') ==> b.pendingLocal == Some(o')
    ensures w' != Lost
    ensures w' == Idle ==> b.state == Stable && b.currentLocal == Some(o) && a.pendingLocal == Some(o)
    ensures w' != Idle && OfferOut(w) ==> OfferOut(w') && b.pendingLocal == a.pendingLocal
  {
  }

  ghost predicate Finished(s: Sys) {
    Connected(s) && !UnderWay(StageOf(s))
  }

  lemma TurnIsPlain(s: Sys, w: Stage)
    requires s.caller.addr < |s.relay.actors| && s.callee.addr < |s.relay.actors| && UnderWay(w)
    ensures Plain(Turn(s, w))
  {
  }

  /** No press of connect and no failing call. */
  predicate Plain(e: Event) {
    e != AtCaller(P.Click) && !Fails(e)
  }

  predicate AllPlain(es: seq<Event>) {
    forall i :: 0 <= i < |es| ==> Plain(es[i])
  }

  lemma PlainFirst(e: Event, es: seq<Event>)
    requires Plain(e) && AllPlain(es)
    ensures AllPlain([e] + es)
  {
  }

  lemma RoundStep(s: Sys, e: Event)
    requires InRound(s) && Connected(s) && UnderWay(StageOf(s)) && !Fails(e)
    ensures InRound(Step(s, e)) && Connected(Step(s, e)) && Owes(s, Step(s, e))
  {
    var w, o, ans :| At(s, w, o, ans);
    StageIsSeen(s, w, o, ans);
    var w', o', ans' := StepNeverSetsBack(s, e, w, o, ans);
    StepOwes(s, e, w, o, ans, w', o', ans');
  }

  /** The next move, the state it leads to and what is then left. */
  lemma NextTurn(s: Sys, m: Measure) returns (e: Event, t: Sys, n: Measure)
    requires InRound(s) && Connected(s) && m == Left(s) && UnderWay(StageOf(s))
    ensures t == Step(s, e) && Plain(e) && Enabled(s, e)
    ensures InRound(t) && Connected(t) && n == Left(t) && Less(n, m) && Owes(s, t)
  {
    e := Turn(s, StageOf(s));
    TurnAdvances(s);
    TurnIsPlain(s, StageOf(s));
    RoundStep(s, e);
    t := Step(s, e);
    n := Left(t);
  }

  /** The round of `s` is over already, or is carried through in `last`. */
  ghost predicate LeadsTo(s: Sys, last: Sys)
    requires Connected(s) && Connected(last)
  {
    if UnderWay(StageOf(s)) then StageOf(last) == Idle && Owes(s, last) else last == s
  }

  /** A round under way can be completed: the moves of those whose turn it is, none of them a press
      of connect or a failing call, end with nothing left. */
  lemma {:induction false} FinishRound(s: Sys, m: Measure) returns (es: seq<Event>, last: Sys)
    requires InRound(s) && Connected(s) && m == Left(s)
    ensures AllPlain(es) && last == Exec(s, es) && InRound(last) && Finished(last)
    ensures LeadsTo(s, last)
    decreases m.stages, m.place.hop, m.place.ahead
  {
    es, last := [], s;
    if !Finished(s) {
      var e, t, n := NextTurn(s, m);
      var rest;
      rest, last := FinishRound(t, n);
      es := [e] + rest;
      FirstStep(s, e, rest);
      PlainFirst(e, rest);
      OwesLast(s, t, last);
    }
  }

  lemma OwesLast(s: Sys, t: Sys, last: Sys)
    requires Connected(s) && UnderWay(StageOf(s)) && Connected(t) && Connected(last) && Owes(s, t) && LeadsTo(t, last)
    ensures LeadsTo(s, last)
  {
  }

  lemma {:induction false} FirstStep(s: Sys, e: Event, es: seq<Event>)
    ensures Exec(s, [e] + es) == Exec(Step(s, e), es)
  {
    if es == [] {
      assert [e][..0] == [];
      assert Exec(s, [e]) == Step(Exec(s, []), e);
      assert [e] + es == [e];
    } else {
      var n := |es| - 1;
      FirstStep(s, e, es[..n]);
      assert ([e] + es)[..|es|] == [e] + es[..n];
    }
  }

  predicate AtRest(s: Sys) {
    var (p, q) := (s.caller.page, s.callee.page);
    && p.pc.state == Stable && q.pc.state == Stable && !p.negotiating && !q.negotiating
    && p.acts == [] && q.acts == [] && Agreed(p.pc, q.pc)
  }

  lemma IdlePages(p: P.Page, q: P.Page, me: Id, peer: Id, w: Stage, o: Sdp, ans: Sdp)
    requires Pages(p, q, me, peer, w, o, ans)
    ensures w == Idle <==> !p.negotiating
  {
  }

  lemma LeftAtRest(t: Sys, w: Stage, o: Sdp, ans: Sdp)
    requires At(t, w, o, ans)
    ensures Connected(t) && (StageOf(t) == Idle <==> !t.caller.page.negotiating)
    ensures StageOf(t) == Idle && t.caller.page.pc.state == Stable ==> AtRest(t)
    ensures Smooth(t.caller.page.pc, w) && StageOf(t) == Idle ==> AtRest(t)
  {
    LeftIs(t, w, o, ans);
    IdlePages(t.caller.page, t.callee.page, t.caller.id, t.callee.id, w, o, ans);
    CallerStability(t.caller.page, t.callee.page, t.caller.id, t.callee.id, w, o, ans);
  }

  lemma LeftOver(w: Stage)
    ensures StagesLeft(w) == 0 <==> !UnderWay(w)
  {
  }

  /** Whenever the caller is stable with its flag down, nothing is left of the round, the callee is
      stable too, and both agree. As long as no call has failed, that is the only way to have nothing
      left. */
  lemma RestIsIdle(trace: seq<Sys>, es: seq<Event>, n: nat)
    requires Run(trace, es) && n <= |es|
    ensures Connected(trace[n])
    ensures var t := trace[n];
      && (t.caller.page.pc.state == Stable && !t.caller.page.negotiating ==> Left(t).stages == 0 && AtRest(t))
      && (NoFailure(es[..n]) && Left(t).stages == 0 ==> AtRest(t))
  {
    var w, o, ans := RunsGoRound(trace, es, n);
    LeftIs(trace[n], w, o, ans);
    LeftOver(w);
    LeftAtRest(trace[n], w, o, ans);
  }

  /** In every run, as long as something is left of the round, some step is possible that is no
      press of connect, no failing call, and leaves less. */
  lemma SomeoneCanMove(trace: seq<Sys>, es: seq<Event>, n: nat) returns (e: Event)
    requires Run(trace, es) && n <= |es|
    ensures Connected(trace[n])
    ensures Left(trace[n]).stages > 0 ==>
      && Enabled(trace[n], e) && Plain(e)
      && Connected(Step(trace[n], e)) && Less(Left(Step(trace[n], e)), Left(trace[n]))
  {
    var w, o, ans := RunsGoRound(trace, es, n);
    LeftIs(trace[n], w, o, ans);
    LeftOver(w);
    e := Net(R.ServerHandle);
    if Left(trace[n]).stages > 0 {
      ghost var t, m;
      e, t, m := NextTurn(trace[n], Left(trace[n]));
    }
  }

  /** From wherever a run has got, whatever has failed on the way, a round that is under way can be
      carried through without another press: both sides are then stable, agree and have their flags
      down, and what is current is the offer that was out. A run without failures can always be
      brought to rest. */
  lemma EveryRoundCanFinish(trace: seq<Sys>, es: seq<Event>) returns (fs: seq<Event>)
    requires Run(trace, es)
    ensures Connected(trace[|es|]) && AllPlain(fs)
    ensures var (was, now) := (trace[|es|], Exec(trace[|es|], fs));
      && (UnderWay(StageOf(was)) ==> AtRest(now) && Fulfils(was, now))
      && (NoFailure(es) ==> AtRest(now))
  {
    var was := trace[|es|];
    var w, o, ans := RunsGoRound(trace, es, |es|);
    assert es[..|es|] == es;
    LeftAtRest(was, w, o, ans);
    StageIsSeen(was, w, o, ans);
    var last;
    fs, last := FinishRound(was, Left(was));
    if UnderWay(w) {
      FinishedIsAtRest(was, last);
    }
  }

  /** A round that really takes place: the press begins it, and it ends with the caller's offer
      current on both sides. */
  lemma CallSucceeds(s: Sys) returns (fs: seq<Event>)
    requires Start(s) && s.caller.page.stream.Some?
    requires s.caller.page.rendered.peerId == s.callee.id && s.caller.page.rendered.ready
    ensures var t := Exec(s, [AtCaller(P.Click)] + fs);
      && AllPlain(fs) && AtRest(t)
      && t.caller.page.pc.currentLocal.Some? && t.callee.page.pc.currentRemote == t.caller.page.pc.currentLocal
  {
    var w, o, ans := StartsIdle(s);
    var t := PressBegins(s);
    var w', o', ans' := StepMovesRound(s, AtCaller(P.Click), w, o, ans);
    LeftIs(t, w', o', ans');
    var last;
    fs, last := FinishRound(t, Left(t));
    FirstStep(s, AtCaller(P.Click), fs);
    FinishedIsAtRest(t, last);
  }

  lemma PressBegins(s: Sys) returns (t: Sys)
    requires Start(s) && s.caller.page.stream.Some?
    requires s.caller.page.rendered.peerId == s.callee.id && s.caller.page.rendered.ready
    ensures t == Step(s, AtCaller(P.Click)) && t.caller.page.acts != [] && t.caller.page.acts[0].Offering?
  {
    t := Step(s, AtCaller(P.Click));
    EnsureTracksWorks(s.caller.page.(negotiating := true));
  }

  lemma FinishedIsAtRest(s: Sys, last: Sys)
    requires Connected(s) && UnderWay(StageOf(s)) && InRound(last) && Connected(last) && LeadsTo(s, last)
    ensures AtRest(last)
  {
    var w, o, ans :| At(last, w, o, ans);
    LeftAtRest(last, w, o, ans);
  }
}
