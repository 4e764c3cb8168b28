/** Under a weakly fair schedule every round without a failing call ends. */
module HandshakeLiveness {
  import opened Messages
  import opened HandshakePages
  import opened WireProgress
  import opened Handshake
  import opened HandshakeRuns
  import opened HandshakeProgress
  import P = Page

  // ----- A turn stays until the round has been taken on -------------------------------------------

  /** Nothing of the round has moved, and it is the same one's turn. */
  ghost predicate SameTurn(s: Sys, t: Sys)
    requires Connected(s) && Connected(t) && UnderWay(StageOf(s))
  {
    Left(t) == Left(s) && StageOf(t) == StageOf(s) && Turn(t, StageOf(s)) == Turn(s, StageOf(s))
  }

  lemma CallerPcStays(p: P.Page, e: P.Event, q: P.Page, me: Id, peer: Id, w: Stage, o: Sdp, ans: Sdp)
    requires Pages(p, q, me, peer, w, o, ans) && CallerAwaits(w) && CallerEvent(e) && !e.Resolve? && !e.Reject?
    ensures P.Step(p, e).pc == p.pc
  {
  }

  predicate CalleeAwaits(w: Stage) {
    w in {OfferTaken, AnswerMaking, AnswerSetting}
  }

  lemma CalleePcStays(p: P.Page, e: P.Event, q: P.Page, me: Id, peer: Id, w: Stage, o: Sdp, ans: Sdp)
    requires Pages(p, q, me, peer, w, o, ans) && CalleeAwaits(w) && CalleeEvent(e) && !e.Resolve? && !e.Reject?
    ensures P.Step(q, e).pc == q.pc
  {
  }

  /** Only its own answer ends a browser call, and that takes the round on. */
  lemma CallStays(s: Sys, e: Event, w: Stage, o: Sdp, ans: Sdp)
    requires At(s, w, o, ans) && Connected(Step(s, e)) && StageOf(Step(s, e)) == w
    ensures CallerAwaits(w) ==> Step(s, e).caller.page.pc == s.caller.page.pc
    ensures CalleeAwaits(w) ==> Step(s, e).callee.page.pc == s.callee.page.pc
  {
    OthersKeepPc(s, e);
    if Enabled(s, e) && e.AtCaller? {
      CallerCallStays(s, e.e, w, o, ans);
    } else if Enabled(s, e) && e.AtCallee? {
      CalleeCallStays(s, e.e, w, o, ans);
    }
  }

  lemma CallerCallStays(s: Sys, a: P.Event, w: Stage, o: Sdp, ans: Sdp)
    requires At(s, w, o, ans) && Enabled(s, AtCaller(a))
    requires Connected(Step(s, AtCaller(a))) && StageOf(Step(s, AtCaller(a))) == w
    ensures CallerAwaits(w) ==> P.Step(s.caller.page, a).pc == s.caller.page.pc
  {
    if a.Resolve? || a.Reject? {
      var w', o' := CallerStep(s, a, w, o, ans);
      StageIsSeen(Step(s, AtCaller(a)), w', o', ans);
    } else if CallerAwaits(w) {
      CallerPcStays(s.caller.page, a, s.callee.page, s.caller.id, s.callee.id, w, o, ans);
    }
  }

  lemma CalleeCallStays(s: Sys, a: P.Event, w: Stage, o: Sdp, ans: Sdp)
    requires At(s, w, o, ans) && Enabled(s, AtCallee(a))
    requires Connected(Step(s, AtCallee(a))) && StageOf(Step(s, AtCallee(a))) == w
    ensures CalleeAwaits(w) ==> P.Step(s.callee.page, a).pc == s.callee.page.pc
  {
    if a.Resolve? || a.Reject? {
      var w', ans' := CalleeStep(s, a, w, o, ans);
      StageIsSeen(Step(s, AtCallee(a)), w', o, ans');
    } else if CalleeAwaits(w) {
      CalleePcStays(s.caller.page, a, s.callee.page, s.caller.id, s.callee.id, w, o, ans);
    }
  }

  lemma TurnIsKept(s: Sys, t: Sys, w: Stage)
    requires s.caller.addr < |s.relay.actors| && s.callee.addr < |s.relay.actors| && UnderWay(w)
    requires t.caller.addr < |t.relay.actors| && t.callee.addr < |t.relay.actors|
    requires t.caller.addr == s.caller.addr && t.callee.addr == s.callee.addr && PlaceIn(t, w) == PlaceIn(s, w)
    requires CallerAwaits(w) ==> t.caller.page.pc == s.caller.page.pc
    requires CalleeAwaits(w) ==> t.callee.page.pc == s.callee.page.pc
    ensures Turn(t, w) == Turn(s, w)
  {
  }

  lemma AddressesStay(s: Sys, e: Event)
    ensures Step(s, e).caller.addr == s.caller.addr && Step(s, e).callee.addr == s.callee.addr
  {
  }

  /** A turn remains possible and remains the turn until less is left of the round. */
  lemma TurnStays(s: Sys, e: Event)
    requires InRound(s) && Connected(s) && UnderWay(StageOf(s))
    ensures Connected(Step(s, e)) && (Less(Left(Step(s, e)), Left(s)) || SameTurn(s, Step(s, e)))
    ensures Enabled(s, Turn(s, StageOf(s)))
  {
    TurnAdvances(s);
    var w, o, ans :| At(s, w, o, ans);
    LeftIs(s, w, o, ans);
    StaysOrLess(s, e, w, o, ans);
  }

  lemma StaysOrLess(s: Sys, e: Event, w: Stage, o: Sdp, ans: Sdp)
    requires At(s, w, o, ans) && UnderWay(w) && Connected(s) && StageOf(s) == w
    ensures Connected(Step(s, e))
    ensures Less(Left(Step(s, e)), Left(s)) || SameTurn(s, Step(s, e))
  {
    var t := Step(s, e);
    var w', o', ans' := StepNeverSetsBack(s, e, w, o, ans);
    LeftIs(t, w', o', ans');
    if w' != w || Nearer(PlaceIn(t, w), PlaceIn(s, w)) {
      AfterIsLess(w, w', PlaceIn(s, w), PlaceIn(t, w'));
    } else {
      SamePlace(PlaceIn(s, w), PlaceIn(t, w));
      CallStays(s, e, w, o, ans);
      AddressesStay(s, e);
      TurnIsKept(s, t, w);
    }
  }

  lemma SamePlace(a: Place, b: Place)
    requires !Nearer(a, b) && !Nearer(b, a)
    ensures a == b
  {
  }

  // ----- Endless runs -----------------------------------------------------------------------------

  /** A run without end. */
  ghost predicate Endless(sigma: nat -> Sys, ev: nat -> Event) {
    Start(sigma(0)) && forall n: nat {:trigger ev(n)} :: sigma(n + 1) == Step(sigma(n), ev(n))
  }

  /** The events that the relay and the browsers owe: handling, carrying, rendering, settling. */
  predicate Handles(e: Event) {
    match e
    case Net(l) => l.ServerHandle? || l.SessionHandle?
    case AtCaller(a) => a.Render? || a.RunEffect? || a.Resolve?
    case AtCallee(a) => a.Render? || a.RunEffect? || a.Resolve?
    case _ => true
  }

  /** From `n` on the event happens some time, or some time cannot. */
  ghost predicate Served(sigma: nat -> Sys, ev: nat -> Event, e: Event, n: nat) {
    exists m :: n <= m && ServedAt(sigma, ev, e, m)
  }

  predicate ServedAt(sigma: nat -> Sys, ev: nat -> Event, e: Event, m: nat) {
    ev(m) == e || !Enabled(sigma(m), e)
  }

  /** Weak fairness: none of these events stays possible forever without happening. */
  ghost predicate Fair(sigma: nat -> Sys, ev: nat -> Event) {
    forall e, n :: Handles(e) ==> Served(sigma, ev, e, n)
  }

  lemma TurnIsOwed(s: Sys, w: Stage)
    requires s.caller.addr < |s.relay.actors| && s.callee.addr < |s.relay.actors| && UnderWay(w)
    ensures Handles(Turn(s, w))
  {
  }

  lemma InRoundConnects(s: Sys)
    requires InRound(s)
    ensures Connected(s)
  {
    var w, o, ans :| At(s, w, o, ans);
    StageIsSeen(s, w, o, ans);
  }

  function Events(ev: nat -> Event, n: nat): (es: seq<Event>)
    ensures |es| == n
  {
    seq(n, i requires 0 <= i < n => ev(i))
  }

  lemma {:induction false} EndlessIsExec(sigma: nat -> Sys, ev: nat -> Event, n: nat)
    requires Endless(sigma, ev)
    ensures sigma(n) == Exec(sigma(0), Events(ev, n))
  {
    if n > 0 {
      EndlessIsExec(sigma, ev, n - 1);
      assert Events(ev, n)[..n - 1] == Events(ev, n - 1) && Events(ev, n)[n - 1] == ev(n - 1);
    }
  }

  lemma AlwaysInRound(sigma: nat -> Sys, ev: nat -> Event, n: nat)
    requires Endless(sigma, ev)
    ensures InRound(sigma(n))
  {
    EndlessIsExec(sigma, ev, n);
    var w, o, ans := ExecGoesRound(sigma(0), Events(ev, n));
  }

  lemma AlwaysConnected(sigma: nat -> Sys, ev: nat -> Event, n: nat)
    requires Endless(sigma, ev)
    ensures InRound(sigma(n)) && Connected(sigma(n))
  {
    AlwaysInRound(sigma, ev, n);
    InRoundConnects(sigma(n));
  }

  /** No call fails from `n` on. */
  ghost predicate NoFailureFrom(ev: nat -> Event, n: nat) {
    forall m: nat {:trigger ev(m)} :: n <= m ==> !Fails(ev(m))
  }

  lemma NextTurnStays(s: Sys, e: Event, t: Sys)
    requires InRound(s) && Connected(s) && UnderWay(StageOf(s)) && t == Step(s, e) && !Fails(e)
    ensures Connected(t) && Owes(s, t) && (Less(Left(t), Left(s)) || SameTurn(s, t))
  {
    TurnStays(s, e);
    RoundStep(s, e);
  }

  lemma SameTurnOn(s: Sys, t: Sys, u: Sys)
    requires Connected(s) && Connected(t) && Connected(u) && UnderWay(StageOf(s))
    requires SameTurn(s, t) && Owes(s, t) && Owes(t, u) && (Less(Left(u), Left(t)) || SameTurn(t, u))
    ensures Owes(s, u) && (Less(Left(u), Left(s)) || SameTurn(s, u))
  {
    OwesOn(s, t, u);
  }

  /** Since `n` it has been the same turn. */
  ghost predicate Still(sigma: nat -> Sys, n: nat, m: nat) {
    && Connected(sigma(n)) && Connected(sigma(m)) && UnderWay(StageOf(sigma(n)))
    && SameTurn(sigma(n), sigma(m)) && Owes(sigma(n), sigma(m))
  }

  /** Less is left than at `n`. */
  ghost predicate Dropped(sigma: nat -> Sys, n: nat, m: nat) {
    && Connected(sigma(n)) && Connected(sigma(m)) && UnderWay(StageOf(sigma(n)))
    && Less(Left(sigma(m)), Left(sigma(n))) && Owes(sigma(n), sigma(m))
  }

  lemma StillAtFirst(sigma: nat -> Sys, n: nat)
    requires Connected(sigma(n)) && UnderWay(StageOf(sigma(n)))
    ensures Still(sigma, n, n)
  {
  }

  lemma OneStepOn(sigma: nat -> Sys, ev: nat -> Event, n: nat, m: nat)
    requires Endless(sigma, ev) && Still(sigma, n, m) && !Fails(ev(m))
    ensures Still(sigma, n, m + 1) || Dropped(sigma, n, m + 1)
  {
    AlwaysConnected(sigma, ev, m);
    NextTurnStays(sigma(m), ev(m), sigma(m + 1));
    SameTurnOn(sigma(n), sigma(m), sigma(m + 1));
  }

  predicate StaysOrDone(still: nat -> bool, done: nat -> bool, i: nat) {
    still(i) ==> still(i + 1) || done(i + 1)
  }

  /** What holds until something is done holds to the end, or that is done on the way. */
  lemma FirstChange(still: nat -> bool, done: nat -> bool, n: nat, m: nat) returns (k: nat)
    requires n <= m && still(n)
    requires forall i: nat :: n <= i < m ==> StaysOrDone(still, done, i)
    ensures n <= k <= m && (done(k) || (k == m && still(m)))
  {
    k := n;
    while k < m && !done(k)
      invariant n <= k <= m && (done(k) || still(k))
    {
      assert StaysOrDone(still, done, k);
      k := k + 1;
    }
  }

  lemma NowOrNext(still: nat -> bool, done: nat -> bool, k: nat, m: nat) returns (j: nat)
    requires k <= m && (done(k) || (k == m && still(m)))
    requires still(m) ==> done(m + 1)
    ensures k <= j && done(j)
  {
    j := if done(k) then k else m + 1;
  }

  /** Between two moments of a round either less is left some time, or it is the same turn still. */
  lemma Walk(sigma: nat -> Sys, ev: nat -> Event, n: nat, m: nat) returns (k: nat)
    requires Endless(sigma, ev) && NoFailureFrom(ev, n) && n <= m && Still(sigma, n, n)
    ensures n <= k <= m && (Dropped(sigma, n, k) || (k == m && Still(sigma, n, m)))
  {
    var still, done := (i: nat) => Still(sigma, n, i), (i: nat) => Dropped(sigma, n, i);
    forall i: nat | n <= i < m ensures StaysOrDone(still, done, i) {
      if Still(sigma, n, i) {
        OneStepOn(sigma, ev, n, i);
      }
    }
    k := FirstChange(still, done, n, m);
  }

  lemma TakenTurn(s: Sys, e: Event, t: Sys)
    requires InRound(s) && Connected(s) && UnderWay(StageOf(s)) && t == Step(s, e) && e == Turn(s, StageOf(s))
    ensures Connected(t) && Owes(s, t) && Less(Left(t), Left(s))
  {
    TurnAdvances(s);
    TurnIsPlain(s, StageOf(s));
    RoundStep(s, e);
  }

  /** It is still the turn of `n`, and now it is taken. */
  lemma TakeTurn(sigma: nat -> Sys, ev: nat -> Event, n: nat, m: nat)
    requires Endless(sigma, ev) && Still(sigma, n, m)
    requires ServedAt(sigma, ev, Turn(sigma(n), StageOf(sigma(n))), m)
    ensures Dropped(sigma, n, m + 1)
  {
    AlwaysConnected(sigma, ev, m);
    TurnStays(sigma(m), ev(m));
    TakenTurn(sigma(m), ev(m), sigma(m + 1));
    SameTurnOn(sigma(n), sigma(m), sigma(m + 1));
  }

  lemma Moment(sigma: nat -> Sys, ev: nat -> Event, e: Event, n: nat) returns (m: nat)
    requires Fair(sigma, ev) && Handles(e)
    ensures n <= m && ServedAt(sigma, ev, e, m)
  {
    assert Served(sigma, ev, e, n);
    m :| n <= m && ServedAt(sigma, ev, e, m);
  }

  /** A fair schedule takes the round on. */
  lemma FairnessAdvances(sigma: nat -> Sys, ev: nat -> Event, n: nat) returns (k: nat)
    requires Endless(sigma, ev) && Fair(sigma, ev) && NoFailureFrom(ev, n) && Still(sigma, n, n)
    ensures n <= k && Dropped(sigma, n, k)
  {
    TurnIsOwed(sigma(n), StageOf(sigma(n)));
    var m := Moment(sigma, ev, Turn(sigma(n), StageOf(sigma(n))), n);
    k := Walk(sigma, ev, n, m);
    if Still(sigma, n, m) {
      TakeTurn(sigma, ev, n, m);
    }
    k := NowOrNext((i: nat) => Still(sigma, n, i), (i: nat) => Dropped(sigma, n, i), k, m);
  }

  lemma {:induction false} FairRoundEnds(sigma: nat -> Sys, ev: nat -> Event, n: nat, left: Measure) returns (k: nat)
    requires Endless(sigma, ev) && Fair(sigma, ev) && NoFailureFrom(ev, n)
    requires Connected(sigma(n)) && left == Left(sigma(n))
    ensures n <= k && Finished(sigma(k)) && LeadsTo(sigma(n), sigma(k))
    decreases left.stages, left.place.hop, left.place.ahead
  {
    k := n;
    if UnderWay(StageOf(sigma(n))) {
      StillAtFirst(sigma, n);
      var m := FairnessAdvances(sigma, ev, n);
      k := FairRoundEnds(sigma, ev, m, Left(sigma(m)));
      OwesLast(sigma(n), sigma(m), sigma(k));
    }
  }

  /** In an endless run with a fair schedule in which from some time on no call fails, every round
      then under way comes to its end, whatever has failed before and whatever else the users, the
      other clients and the relay do: both sides are stable, agree and have their flags down, and the
      offer that was out is current. */
  lemma FairRoundsEnd(sigma: nat -> Sys, ev: nat -> Event, n: nat) returns (k: nat)
    requires Endless(sigma, ev) && Fair(sigma, ev) && NoFailureFrom(ev, n)
    ensures n <= k && Connected(sigma(n))
    ensures UnderWay(StageOf(sigma(n))) ==> AtRest(sigma(k)) && Fulfils(sigma(n), sigma(k))
    ensures NoFailureFrom(ev, 0) ==> AtRest(sigma(k))
  {
    AlwaysConnected(sigma, ev, n);
    k := FairRoundEnds(sigma, ev, n, Left(sigma(n)));
    AlwaysConnected(sigma, ev, k);
    if UnderWay(StageOf(sigma(n))) {
      FinishedIsAtRest(sigma(n), sigma(k));
    } else if NoFailureFrom(ev, 0) {
      IdleIsAtRest(sigma, ev, n);
    }
  }

  lemma IdleIsAtRest(sigma: nat -> Sys, ev: nat -> Event, n: nat)
    requires Endless(sigma, ev) && NoFailureFrom(ev, 0) && Finished(sigma(n))
    ensures AtRest(sigma(n))
  {
    EndlessIsExec(sigma, ev, n);
    var es := Events(ev, n);
    assert NoFailure(es);
    var w, o, ans := ExecGoesRound(sigma(0), es);
    StageIsSeen(sigma(n), w, o, ans);
    LeftAtRest(sigma(n), w, o, ans);
  }

  // ----- Such runs exist --------------------------------------------------------------------------

  /** The caller renders at even times and the callee at odd ones. */
  function Rendering(n: nat): Event {
    if n % 2 == 0 then AtCaller(P.Render) else AtCallee(P.Render)
  }

  /** Nothing is to be handled, carried or settled, and a rendering shows nothing new. */
  ghost predicate Quiescent(s: Sys) {
    && Step(s, AtCaller(P.Render)) == s && Step(s, AtCallee(P.Render)) == s
    && forall e :: Handles(e) && Enabled(s, e) ==> e in {AtCaller(P.Render), AtCallee(P.Render)}
  }

  /** A quiescent start goes on for ever, fairly and without failures. */
  lemma QuiescentStartGoesOn(s: Sys) returns (sigma: nat -> Sys, ev: nat -> Event)
    requires Start(s) && Quiescent(s)
    ensures Endless(sigma, ev) && Fair(sigma, ev) && NoFailureFrom(ev, 0)
  {
    sigma, ev := (_: nat) => s, Rendering;
    forall e, n: nat | Handles(e) ensures Served(sigma, ev, e, n) {
      var m := if e == Rendering(n) then n else n + 1;
      assert ServedAt(sigma, ev, e, if Enabled(s, e) then m else n);
    }
  }
}
