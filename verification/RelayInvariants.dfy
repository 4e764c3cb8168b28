/** What every run of the signaling server keeps. */
module RelayInvariants {
  import opened Messages
  import opened Relay

  // ----- Registration -------------------------------------------------------------------------

  predicate About(e: Envelope, id: Id) {
    (e.Register? || e.Unregister?) && e.id == id
  }

  /** The registrations and removals of `id` still in the server mailbox, in order. */
  function Life(q: seq<Envelope>, id: Id): seq<Envelope> {
    if q == [] then [] else (if About(q[0], id) then [q[0]] else []) + Life(q[1..], id)
  }

  lemma {:induction false} LifeSnoc(q: seq<Envelope>, e: Envelope, id: Id)
    ensures Life(q + [e], id) == Life(q, id) + (if About(e, id) then [e] else [])
  {
    if q != [] {
      assert (q + [e])[1..] == q[1..] + [e];
      LifeSnoc(q[1..], e, id);
    }
  }

  lemma {:induction false} LifeOfStranger(q: seq<Envelope>, id: Id)
    requires forall i :: 0 <= i < |q| ==> !About(q[i], id)
    ensures Life(q, id) == []
  {
    if q != [] {
      LifeOfStranger(q[1..], id);
    }
  }

  ghost predicate UniqueIds(s: State) {
    forall a, b :: 0 <= a < b < |s.actors| ==> s.actors[a].id != s.actors[b].id
  }

  /** Where a session is in its life: what is queued about it and whether the map has it. */
  predicate LifeOk(s: State, a: Addr)
    requires a < |s.actors|
  {
    var x := s.actors[a];
    var q := Life(s.server, x.id);
    var mapped := x.id in s.sessions && s.sessions[x.id] == a;
    match x.phase
    case Created => q == [] && x.id !in s.sessions
    case Stopped =>
      || (q == [Register(x.id, a), Unregister(x.id)] && x.id !in s.sessions)
      || (q == [Unregister(x.id)] && mapped)
      || (q == [] && x.id !in s.sessions)
    case _ => (q == [Register(x.id, a)] && x.id !in s.sessions) || (q == [] && mapped)
  }

  /** Everybody talked about is an actor of the system. */
  ghost predicate Closed(s: State) {
    && (forall id :: id in s.sessions ==> s.sessions[id] < |s.actors| && s.actors[s.sessions[id]].id == id)
    && (forall i :: 0 <= i < |s.server| && !s.server[i].Send? ==> IdInUse(s, s.server[i].id))
  }

  ghost predicate Lifecycle(s: State) {
    UniqueIds(s) && Closed(s) && forall a :: 0 <= a < |s.actors| ==> LifeOk(s, a)
  }

  /** The head of the mailbox, when it is about an id, is the one thing its life allows. */
  lemma HeadIsNext(s: State, a: Addr)
    requires Lifecycle(s) && s.server != [] && a < |s.actors| && About(s.server[0], s.actors[a].id)
    ensures var x := s.actors[a];
      && (s.server[0] == Register(x.id, a) || s.server[0] == Unregister(x.id))
      && (s.server[0].Register? <==> x.id !in s.sessions)
  {
    assert LifeOk(s, a);
    assert Life(s.server, s.actors[a].id)[0] == s.server[0];
  }

  lemma HandleKeepsLifecycle(s: State)
    requires Lifecycle(s) && s.server != [] && !s.server[0].Send?
    ensures Lifecycle(Step(s, ServerHandle))
  {
    var t, id := Step(s, ServerHandle), s.server[0].id;
    var b :| 0 <= b < |s.actors| && s.actors[b].id == id;
    HeadIsNext(s, b);
    forall a | 0 <= a < |t.actors| ensures LifeOk(t, a) {
      assert LifeOk(s, a);
      var q := Life(s.server, s.actors[a].id);
      if a == b {
        assert q == [s.server[0]] + Life(t.server, id);
        assert q[1..] == Life(t.server, id);
      } else {
        assert s.actors[a].id != id;
        assert q == Life(t.server, s.actors[a].id);
      }
    }
    forall i | 0 <= i < |t.server| && !t.server[i].Send? ensures IdInUse(t, t.server[i].id) {
      assert t.server[i] == s.server[i + 1];
    }
  }

  lemma SendKeepsLifecycle(s: State, t: State)
    requires Lifecycle(s) && t.sessions == s.sessions && |t.actors| == |s.actors|
    requires forall a :: 0 <= a < |s.actors| ==>
      t.actors[a].id == s.actors[a].id && t.actors[a].phase == s.actors[a].phase
    requires || (s.server != [] && s.server[0].Send? && t.server == s.server[1..])
             || (exists e: Envelope :: e.Send? && t.server == s.server + [e])
             || t.server == s.server
    ensures Lifecycle(t)
  {
    forall a | 0 <= a < |t.actors| ensures LifeOk(t, a) {
      assert LifeOk(s, a);
      if s.server == [] || t.server != s.server[1..] {
        if e: Envelope :| e.Send? && t.server == s.server + [e] {
          LifeSnoc(s.server, e, s.actors[a].id);
        }
      }
    }
    forall i | 0 <= i < |t.server| && !t.server[i].Send? ensures IdInUse(t, t.server[i].id) {
      assert t.server[i] in s.server;
      var j :| 0 <= j < |s.server| && s.server[j] == t.server[i];
      var b :| 0 <= b < |s.actors| && s.actors[b].id == s.server[j].id;
      assert t.actors[b].id == s.server[j].id;
    }
  }

  /** A session announces its start or its end. */
  lemma AnnounceKeepsLifecycle(s: State, l: Label, a: Addr)
    requires Lifecycle(s) && Enabled(s, l) && (l == Start(a) || l == Stop(a))
    ensures Lifecycle(Step(s, l))
  {
    var t, id := Step(s, l), s.actors[a].id;
    var e := if l.Start? then Register(id, a) else Unregister(id);
    assert t.server == s.server + [e];
    forall b | 0 <= b < |t.actors| ensures LifeOk(t, b) {
      assert LifeOk(s, b);
      LifeSnoc(s.server, e, s.actors[b].id);
    }
    forall i | 0 <= i < |t.server| && !t.server[i].Send? ensures IdInUse(t, t.server[i].id) {
      var b :| 0 <= b < |s.actors| && s.actors[b].id == t.server[i].id;
      assert t.actors[b].id == t.server[i].id;
    }
  }

  lemma ConnectKeepsLifecycle(s: State, id: Id)
    requires Lifecycle(s) && !IdInUse(s, id)
    ensures Lifecycle(Step(s, Connect(id)))
  {
    var t := Step(s, Connect(id));
    forall b | 0 <= b < |t.actors| ensures LifeOk(t, b) {
      if b < |s.actors| {
        assert LifeOk(s, b);
      } else {
        LifeOfStranger(s.server, id);
      }
    }
    forall i | 0 <= i < |t.server| && !t.server[i].Send? ensures IdInUse(t, t.server[i].id) {
      var b :| 0 <= b < |s.actors| && s.actors[b].id == s.server[i].id;
      assert t.actors[b].id == s.server[i].id;
    }
  }

  lemma StepKeepsLifecycle(s: State, l: Label)
    requires Lifecycle(s)
    ensures Lifecycle(Step(s, l))
  {
    if Enabled(s, l) {
      match l
      case Connect(id) => ConnectKeepsLifecycle(s, id);
      case Start(a) => AnnounceKeepsLifecycle(s, l, a);
      case Stop(a) => AnnounceKeepsLifecycle(s, l, a);
      case ServerHandle =>
        if s.server[0].Send? {
          SendKeepsLifecycle(s, Step(s, l));
        } else {
          HandleKeepsLifecycle(s);
        }
      case Receive(a, text) =>
        if ServerParse(text).Some? {
          var e := Send(ServerParse(text).value, text, |s.accepted|);
          assert Step(s, l).server == s.server + [e];
          SendKeepsLifecycle(s, Step(s, l));
        }
      case Greet(a) => GreetKeepsLifecycle(s, a);
      case SessionHandle(a) => SendKeepsLifecycle(s, Step(s, l));
    }
  }

  lemma GreetKeepsLifecycle(s: State, a: Addr)
    requires Lifecycle(s) && Enabled(s, Greet(a))
    ensures Lifecycle(Step(s, Greet(a)))
  {
    var t := Step(s, Greet(a));
    forall b | 0 <= b < |t.actors| ensures LifeOk(t, b) {
      assert LifeOk(s, b);
    }
    forall i | 0 <= i < |t.server| && !t.server[i].Send? ensures IdInUse(t, t.server[i].id) {
      var b :| 0 <= b < |s.actors| && s.actors[b].id == s.server[i].id;
      assert t.actors[b].id == s.server[i].id;
    }
  }

  /** An id that has been removed: its session stopped and nothing about it is left to handle. */
  predicate Gone(s: State, a: Addr) {
    InPhase(s, a, Stopped) && Life(s.server, s.actors[a].id) == []
  }

  lemma GoneStaysGone(s: State, l: Label, a: Addr)
    requires Lifecycle(s) && Gone(s, a)
    ensures Gone(Step(s, l), a) && Step(s, l).actors[a].id == s.actors[a].id
  {
    if Enabled(s, l) {
      var id := s.actors[a].id;
      match l
      case Start(b) => LifeSnoc(s.server, Register(s.actors[b].id, b), id);
      case Stop(b) => LifeSnoc(s.server, Unregister(s.actors[b].id), id);
      case Receive(_, text) =>
        if ServerParse(text).Some? {
          LifeSnoc(s.server, Send(ServerParse(text).value, text, |s.accepted|), id);
        }
      case _ =>
    }
  }

  lemma {:induction false} ExecKeepsLifecycle(s: State, ls: seq<Label>)
    requires Lifecycle(s)
    ensures Lifecycle(Exec(s, ls))
  {
    if ls != [] {
      ExecKeepsLifecycle(s, ls[..|ls| - 1]);
      StepKeepsLifecycle(Exec(s, ls[..|ls| - 1]), ls[|ls| - 1]);
    }
  }

  /** In every run and for every session: at most one registration and one removal are queued, in
      that order; the map has the id, at the session's own address, exactly from the handling of
      the registration to the handling of the removal; and when every session has stopped and the
      mailbox is empty, so is the map. */
  lemma RegistrationLifecycle(ls: seq<Label>)
    ensures var s := Exec(INIT, ls);
      && (forall a :: 0 <= a < |s.actors| ==>
            LifeOk(s, a) && (s.actors[a].id in s.sessions ==> s.sessions[s.actors[a].id] == a))
      && (s.server == [] && (forall a :: 0 <= a < |s.actors| ==> s.actors[a].phase == Stopped) ==> s.sessions == map[])
  {
    ExecKeepsLifecycle(INIT, ls);
    var s := Exec(INIT, ls);
    forall a | 0 <= a < |s.actors| && s.actors[a].id in s.sessions ensures s.sessions[s.actors[a].id] == a {
      assert s.actors[s.sessions[s.actors[a].id]].id == s.actors[a].id;
    }
    if id :| id in s.sessions {
      MappedIsLiveOrQueued(s, id);
    }
  }

  lemma MappedIsLiveOrQueued(s: State, id: Id)
    requires Lifecycle(s) && id in s.sessions
    ensures s.actors[s.sessions[id]].phase != Stopped || s.server != []
  {
    assert LifeOk(s, s.sessions[id]);
  }

  /** A removed id never comes back. */
  lemma {:induction false} RemovedNeverReturns(s: State, a: Addr, ls: seq<Label>)
    requires Lifecycle(s) && Gone(s, a)
    ensures Gone(Exec(s, ls), a) && s.actors[a].id !in Exec(s, ls).sessions
    ensures a < |Exec(s, ls).actors| && Exec(s, ls).actors[a].id == s.actors[a].id
  {
    ExecKeepsLifecycle(s, ls);
    if ls != [] {
      RemovedNeverReturns(s, a, ls[..|ls| - 1]);
      ExecKeepsLifecycle(s, ls[..|ls| - 1]);
      GoneStaysGone(Exec(s, ls[..|ls| - 1]), ls[|ls| - 1], a);
    }
    assert LifeOk(Exec(s, ls), a);
  }

  // ----- The greeting -----------------------------------------------------------------------------

  predicate Greeted(x: Session) {
    match x.phase
    case Created => x.output == []
    case Registering => x.output == []
    case _ =>
      && x.output != [] && x.output[0] == Hello(Welcome(x.id))
      && forall i :: 0 < i < |x.output| ==> x.output[i].Forward?
  }

  ghost predicate AllGreeted(s: State) {
    forall a :: 0 <= a < |s.actors| ==> Greeted(s.actors[a])
  }

  lemma StepKeepsGreeted(s: State, l: Label)
    requires AllGreeted(s)
    ensures AllGreeted(Step(s, l))
  {
    var t := Step(s, l);
    forall a | 0 <= a < |t.actors| ensures Greeted(t.actors[a]) {
      assert a < |s.actors| ==> Greeted(s.actors[a]);
    }
  }

  /** In every run, even if peers' texts reach a session before its greeting is written, the first
      thing a session outputs is the greeting with its own id, and no other greeting follows. */
  lemma {:induction false} WelcomeFirstAndOnce(ls: seq<Label>)
    ensures AllGreeted(Exec(INIT, ls))
  {
    if ls != [] {
      WelcomeFirstAndOnce(ls[..|ls| - 1]);
      StepKeepsGreeted(Exec(INIT, ls[..|ls| - 1]), ls[|ls| - 1]);
    }
  }
}
