/** Two browsers that connect, are greeted, and wait for their caller get to the starting point. */
module HandshakeStart {
  import opened Wrappers
  import opened Messages
  import opened PeerConnection
  import opened PageLimits
  import opened Wire
  import opened Handshake
  import opened HandshakeRuns
  import opened HandshakeProgress
  import opened HandshakeLiveness
  import R = Relay
  import P = Page

  /** The relay once both sessions have started and been registered. */
  function Registered(a: Id, b: Id): R.State {
    R.State([], map[a := 0, b := 1],
      [R.Session(a, R.Running, [], [R.Hello(Welcome(a))]), R.Session(b, R.Running, [], [R.Hello(Welcome(b))])],
      [], [], [])
  }

  lemma StartsSession(r: R.State, id: Id)
    requires RelayOk(r) && r.server == [] && !R.IdInUse(r, id)
    ensures RelayOk(r.(actors := r.actors + [R.Session(id, R.Running, [], [R.Hello(Welcome(id))])],
                       sessions := r.sessions[id := |r.actors|]))
  {
    var a := |r.actors|;
    var r1 := R.Step(r, R.Connect(id));
    var r2 := R.Step(r1, R.Start(a));
    var r3 := R.Step(r2, R.ServerHandle);
    StepKeepsRelayOk(r, R.Connect(id));
    StepKeepsRelayOk(r1, R.Start(a));
    assert r2.server == [R.Register(id, a)];
    StepKeepsRelayOk(r2, R.ServerHandle);
    StepKeepsRelayOk(r3, R.Greet(a));
    assert r3.actors[a].output + [R.Hello(Welcome(id))] == [R.Hello(Welcome(id))];
    assert R.Step(r3, R.Greet(a)).actors == r.actors + [R.Session(id, R.Running, [], [R.Hello(Welcome(id))])];
    assert R.Step(r3, R.Greet(a)) == r.(actors := r.actors + [R.Session(id, R.Running, [], [R.Hello(Welcome(id))])],
                                        sessions := r.sessions[id := a]);
  }

  lemma BothRegister(a: Id, b: Id)
    requires a != b
    ensures RelayOk(Registered(a, b))
  {
    assert R.INIT == R.Exec(R.INIT, []);
    StartsSession(R.INIT, a);
    var r := R.INIT.(actors := [R.Session(a, R.Running, [], [R.Hello(Welcome(a))])], sessions := map[a := 0]);
    assert R.INIT.actors + [R.Session(a, R.Running, [], [R.Hello(Welcome(a))])] == r.actors;
    assert R.INIT.sessions[a := 0] == r.sessions;
    StartsSession(r, b);
    assert r.sessions[b := 1] == Registered(a, b).sessions;
    assert r.actors + [R.Session(b, R.Running, [], [R.Hello(Welcome(b))])] == Registered(a, b).actors;
  }

  /** The starting point is reached from two new pages and a relay that has just come up. */
  lemma StartHappens(a: Id, b: Id, tracks: seq<Track>) returns (s: Sys, es: seq<P.Event>, fs: seq<P.Event>)
    requires a != b && a != "" && b != "" && Distinct(tracks)
    ensures Start(s) && s.caller.id == a && s.callee.id == b
    ensures s.caller.page == P.Exec(P.NewPage(a), es) && s.callee.page == P.Exec(P.NewPage(b), fs)
    ensures s.caller.page.rendered == P.Ui(Some(a), b, None, true) && s.caller.page.stream == Some(tracks)
    ensures s.relay == Registered(a, b) && s.caller.addr == 0 && s.callee.addr == 1
    ensures s.caller.seen == 1 && s.callee.seen == 1 && s.caller.page.sent == [] && s.callee.page.sent == []
    ensures !s.caller.page.effectDue && s.caller.page.rendered == s.caller.page.next
    ensures !s.callee.page.effectDue && s.callee.page.rendered == s.callee.page.next
  {
    var p, q;
    es, p := Filled(a, b, tracks);
    fs, q := Filled(b, "", tracks);
    BothRegister(a, b);
    s := Sys(Registered(a, b), Client(0, a, p, 0, 1), Client(1, b, q, 0, 1));
    NothingTravels(a, b);
  }

  /** And from there a press of connect leads to a call: both sides agree on the caller's offer. */
  lemma CallHappens(a: Id, b: Id, tracks: seq<Track>) returns (s: Sys, fs: seq<Event>)
    requires a != b && a != "" && b != "" && Distinct(tracks)
    ensures Start(s) && s.caller.id == a && s.callee.id == b && AllPlain(fs)
    ensures var t := Exec(s, [AtCaller(P.Click)] + fs);
      && AtRest(t) && t.caller.page.pc.currentLocal.Some?
      && t.callee.page.pc.currentRemote == t.caller.page.pc.currentLocal
  {
    var ps, qs;
    s, ps, qs := StartHappens(a, b, tracks);
    fs := CallSucceeds(s);
  }

  lemma NothingTravels(a: Id, b: Id)
    requires a != b && RelayOk(Registered(a, b))
    ensures Carries(Registered(a, b), Port(0, a, [], 0, 1), Port(1, b, [], 0, 1), [], [])
  {
    var r := Registered(a, b);
    OutKsOfGreeted(r.actors[0].output);
    OutKsOfGreeted(r.actors[1].output);
  }

  lemma QuietPage(p: P.Page, id: Id)
    requires Ready(p, id) && !p.effectDue && p.rendered == p.next
    ensures P.Step(p, P.Render) == p
    ensures forall e :: P.Enabled(p, e) ==> !e.RunEffect? && !e.Resolve? && !e.Reject?
  {
  }

  /** An endless run with a fair schedule and no failures exists. */
  lemma FairRunHappens(a: Id, b: Id) returns (sigma: nat -> Sys, ev: nat -> Event)
    requires a != b && a != "" && b != ""
    ensures Endless(sigma, ev) && Fair(sigma, ev) && NoFailureFrom(ev, 0)
  {
    var s, ps, qs := StartHappens(a, b, []);
    QuietPage(s.caller.page, a);
    QuietPage(s.callee.page, b);
    QuietStart(s, a, b);
    sigma, ev := QuiescentStartGoesOn(s);
  }

  lemma QuietStart(s: Sys, a: Id, b: Id)
    requires s.relay == Registered(a, b) && s.caller.page.sent == [] && s.callee.page.sent == []
    requires s.caller.addr == 0 && s.callee.addr == 1 && s.caller.seen == 1 && s.callee.seen == 1
    requires P.Step(s.caller.page, P.Render) == s.caller.page && P.Step(s.callee.page, P.Render) == s.callee.page
    requires forall e :: P.Enabled(s.caller.page, e) ==> !e.RunEffect? && !e.Resolve? && !e.Reject?
    requires forall e :: P.Enabled(s.callee.page, e) ==> !e.RunEffect? && !e.Resolve? && !e.Reject?
    ensures Quiescent(s)
  {
    forall e | Handles(e) && Enabled(s, e) ensures e in {AtCaller(P.Render), AtCallee(P.Render)} {
    }
  }
}
