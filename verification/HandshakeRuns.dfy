/** What holds in every run of the single-caller system, failures included, from two idle pages on. */
module HandshakeRuns {
  import opened Wrappers
  import opened Messages
  import opened PeerConnection
  import opened HandshakePages
  import opened Wire
  import opened Handshake
  import P = Page

  /** A page that has its id and no negotiation behind it or under way. */
  predicate Ready(p: P.Page, id: Id) {
    && PageOk(p, id) && p.acts == [] && p.next.pending.None? && !p.negotiating
    && p.pc.(name := "", senders := [], made := 0) == NewPc("")
  }

  /** Both clients are registered and ready, and nothing is on its way. */
  ghost predicate Start(s: Sys) {
    && Carries(s.relay, s.caller.Socket(), s.callee.Socket(), [], [])
    && Ready(s.caller.page, s.caller.id) && Ready(s.callee.page, s.callee.id)
  }

  /** A run, of any length and interleaving: event `es[n]` leads from `trace[n]` to the next state. */
  ghost predicate Run(trace: seq<Sys>, es: seq<Event>) {
    && |trace| == |es| + 1 && Start(trace[0])
    && forall n {:trigger es[n]} :: 0 <= n < |es| ==> trace[n + 1] == Step(trace[n], es[n])
  }

  lemma StartsIdle(s: Sys) returns (w: Stage, o: Sdp, ans: Sdp)
    requires Start(s)
    ensures At(s, w, o, ans) && w == Idle && s.caller.page.pc.state == Stable
  {
    w, o, ans := Idle, Offer("", 0), Answer("", 0, Offer("", 0));
  }

  predicate NoFailure(es: seq<Event>) {
    forall i :: 0 <= i < |es| ==> !Fails(es[i])
  }

  lemma NoFailureBefore(es: seq<Event>)
    requires es != []
    ensures NoFailure(es) ==> NoFailure(es[..|es| - 1]) && !Fails(es[|es| - 1])
  {
  }

  lemma {:induction false} ExecGoesRound(s: Sys, es: seq<Event>) returns (w: Stage, o: Sdp, ans: Sdp)
    requires Start(s)
    ensures At(Exec(s, es), w, o, ans) && (NoFailure(es) ==> Smooth(Exec(s, es).caller.page.pc, w))
  {
    if es == [] {
      w, o, ans := StartsIdle(s);
    } else {
      NoFailureBefore(es);
      w, o, ans := ExecGoesRound(s, es[..|es| - 1]);
      w, o, ans := StepMovesRound(Exec(s, es[..|es| - 1]), es[|es| - 1], w, o, ans);
    }
  }

  lemma {:induction false} RunIsExec(trace: seq<Sys>, es: seq<Event>, n: nat)
    requires Run(trace, es) && n <= |es|
    ensures trace[n] == Exec(trace[0], es[..n])
  {
    if n > 0 {
      RunIsExec(trace, es, n - 1);
      assert es[..n][..n - 1] == es[..n - 1];
    }
  }

  /** Every run goes round the stages. */
  lemma RunsGoRound(trace: seq<Sys>, es: seq<Event>, n: nat) returns (w: Stage, o: Sdp, ans: Sdp)
    requires Run(trace, es) && n <= |es|
    ensures At(trace[n], w, o, ans) && (NoFailure(es[..n]) ==> Smooth(trace[n].caller.page.pc, w))
  {
    RunIsExec(trace, es, n);
    w, o, ans := ExecGoesRound(trace[0], es[..n]);
  }

  ghost predicate Connected(s: Sys) {
    && RelayOk(s.relay) && ClientOk(s.relay, s.caller.Socket()) && ClientOk(s.relay, s.callee.Socket())
  }

  /** The SDP messages of a client that are in its handlers or in its one-place slot. */
  function Held(p: P.Page): nat {
    |p.acts| + (if p.next.pending.Some? then 1 else 0)
  }

  /** All SDP messages there are: at the clients, in their sockets and in the relay. */
  ghost function Tokens(s: Sys): nat
    requires Connected(s)
  {
    Held(s.caller.page) + Held(s.callee.page)
    + |Channel(s.relay, s.caller.Socket(), s.callee.Socket())|
    + |Channel(s.relay, s.callee.Socket(), s.caller.Socket())|
  }

  lemma PagesHoldOne(p: P.Page, q: P.Page, me: Id, peer: Id, w: Stage, o: Sdp, ans: Sdp)
    requires Pages(p, q, me, peer, w, o, ans)
    ensures Held(p) == if w in {OfferMade, OfferSetting, AnswerWaits, AnswerTaken} then 1 else 0
    ensures Held(q) == if w in {OfferWaits, OfferTaken, AnswerMaking, AnswerSetting} then 1 else 0
  {
  }

  /** At most one SDP message exists at any time. */
  lemma SingleToken(trace: seq<Sys>, es: seq<Event>, n: nat)
    requires Run(trace, es) && n <= |es|
    ensures Connected(trace[n]) && Tokens(trace[n]) <= 1
  {
    var w, o, ans := RunsGoRound(trace, es, n);
    TokensAt(trace[n], w, o, ans);
  }

  lemma TokensAt(t: Sys, w: Stage, o: Sdp, ans: Sdp)
    requires At(t, w, o, ans)
    ensures Connected(t) && Tokens(t) <= 1
  {
    PagesHoldOne(t.caller.page, t.callee.page, t.caller.id, t.callee.id, w, o, ans);
  }

  /** So what a client hears is an offer or answer that finds its slot empty and no handler busy. */
  lemma SlotIsNeverOverwritten(trace: seq<Sys>, es: seq<Event>, n: nat, toCaller: bool)
    requires Run(trace, es) && n <= |es| && Enabled(trace[n], Down(toCaller))
    ensures var t := trace[n];
      var p := if toCaller then t.caller.page else t.callee.page;
      && p.next.pending.None? && p.acts == []
      && IsSdp(NextText(t.relay, if toCaller then t.caller.Socket() else t.callee.Socket()))
  {
    var t := trace[n];
    var w, o, ans := RunsGoRound(trace, es, n);
    if toCaller {
      CallerHeads(t, w, o, ans);
    } else {
      CalleeHeads(t, w, o, ans);
    }
  }

  lemma CalleeHeads(s: Sys, w: Stage, o: Sdp, ans: Sdp)
    requires At(s, w, o, ans) && Enabled(s, Down(false))
    ensures w == OfferTravels && NextText(s.relay, s.callee.Socket()) == OfferText(s.caller.id, s.callee.id, o)
  {
    var (me, peer) := (s.caller.id, s.callee.id);
    CarriesDown(s.relay, s.caller.Socket(), s.callee.Socket(), ToCallee(me, peer, w, o), ToCaller(me, peer, w, ans));
  }

  lemma CallerHeads(s: Sys, w: Stage, o: Sdp, ans: Sdp)
    requires At(s, w, o, ans) && Enabled(s, Down(true))
    ensures w == AnswerTravels && NextText(s.relay, s.caller.Socket()) == AnswerText(s.callee.id, s.caller.id, ans)
  {
    var (me, peer) := (s.caller.id, s.callee.id);
    var (toD, toC) := (ToCallee(me, peer, w, o), ToCaller(me, peer, w, ans));
    CarriesBack(s.relay, s.caller.Socket(), s.callee.Socket(), toD, toC);
    CarriesDown(s.relay, s.callee.Socket(), s.caller.Socket(), toC, toD);
  }

  lemma CallerStability(p: P.Page, q: P.Page, me: Id, peer: Id, w: Stage, o: Sdp, ans: Sdp)
    requires Pages(p, q, me, peer, w, o, ans)
    ensures p.pc.state == Stable ==> Unset(w) && Agreed(p.pc, q.pc)
    ensures !Unset(w) ==> p.pc.state != Stable && p.pc.pendingLocal == Some(o)
    ensures w == Idle ==>
      q.pc.state == Stable && !p.negotiating && !q.negotiating && p.acts == [] && q.acts == []
  {
  }

  /** Whenever the caller is stable, its remote description is the callee's answer to exactly its
      own current offer, which is the callee's remote description. */
  lemma Agreement(trace: seq<Sys>, es: seq<Event>, n: nat)
    requires Run(trace, es) && n <= |es|
    ensures var t := trace[n];
      t.caller.page.pc.state == Stable ==> Agreed(t.caller.page.pc, t.callee.page.pc)
  {
    var t := trace[n];
    var w, o, ans := RunsGoRound(trace, es, n);
    CallerStability(t.caller.page, t.callee.page, t.caller.id, t.callee.id, w, o, ans);
  }

  /** The step that makes the caller stable makes current the offer it had pending, on both sides,
      and leaves both idle. */
  lemma RoundsEndInAgreement(trace: seq<Sys>, es: seq<Event>, n: nat)
    requires Run(trace, es) && n < |es|
    requires trace[n].caller.page.pc.state != Stable && trace[n + 1].caller.page.pc.state == Stable
    ensures var (a, b) := (trace[n + 1].caller.page, trace[n + 1].callee.page);
      && trace[n].caller.page.pc.pendingLocal.Some? && a.pc.currentLocal == trace[n].caller.page.pc.pendingLocal
      && Agreed(a.pc, b.pc) && b.pc.state == Stable
      && !a.negotiating && !b.negotiating && a.acts == [] && b.acts == []
  {
    var w, o, ans := RunsGoRound(trace, es, n);
    assert trace[n + 1] == Step(trace[n], es[n]);
    RoundEnds(trace[n], es[n], w, o, ans);
  }

  lemma RoundEnds(t: Sys, e: Event, w: Stage, o: Sdp, ans: Sdp)
    requires At(t, w, o, ans)
    requires t.caller.page.pc.state != Stable && Step(t, e).caller.page.pc.state == Stable
    ensures var (a, b) := (Step(t, e).caller.page, Step(t, e).callee.page);
      && t.caller.page.pc.pendingLocal.Some? && a.pc.currentLocal == t.caller.page.pc.pendingLocal
      && Agreed(a.pc, b.pc) && b.pc.state == Stable
      && !a.negotiating && !b.negotiating && a.acts == [] && b.acts == []
  {
    var w', o', ans' := StepMovesRound(t, e, w, o, ans);
    CallerStability(t.caller.page, t.callee.page, t.caller.id, t.callee.id, w, o, ans);
    var u := Step(t, e);
    CallerStability(u.caller.page, u.callee.page, u.caller.id, u.callee.id, w', o', ans');
  }
}
