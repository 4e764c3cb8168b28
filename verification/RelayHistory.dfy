/** What the relay's state says about the past: what was received, and why a text was dropped. */
module RelayHistory {
  import opened Wrappers
  import opened Messages
  import opened Relay
  import opened RelayInvariants
  import opened RelayRouting

  // ----- What was received --------------------------------------------------------------------------

  /** The texts with an addressee that came in on the sockets of running sessions, in order. */
  function Received(ls: seq<Label>): seq<Accepted> {
    if ls == [] then []
    else
      var (was, l) := (ls[..|ls| - 1], ls[|ls| - 1]);
      if l.Receive? && InPhase(Exec(INIT, was), l.a, Running) && ServerParse(l.text).Some? then
        Received(was) + [Accepted(l.a, ServerParse(l.text).value, l.text)]
      else Received(was)
  }

  /** The server accepts exactly what the sockets bring, word for word and in order. */
  lemma {:induction false} AcceptedIsReceived(ls: seq<Label>)
    ensures Exec(INIT, ls).accepted == Received(ls)
  {
    if ls != [] {
      AcceptedIsReceived(ls[..|ls| - 1]);
      StepAccepts(Exec(INIT, ls[..|ls| - 1]), ls[|ls| - 1]);
    }
  }

  lemma StepAccepts(s: State, l: Label)
    ensures Step(s, l).accepted ==
      if l.Receive? && InPhase(s, l.a, Running) && ServerParse(l.text).Some? then
        s.accepted + [Accepted(l.a, ServerParse(l.text).value, l.text)]
      else s.accepted
  {
  }

  /** Per-pair FIFO: what a session outputs came in on a socket, addressed to its id, as the very
      same text; and it outputs such texts in the order in which they came in, each at most once. */
  lemma OutputsWereReceived(ls: seq<Label>, a: Addr)
    ensures var s := Exec(INIT, ls);
      a < |s.actors| ==>
        && Ascending(OutKs(s.actors[a].output))
        && forall i :: 0 <= i < |s.actors[a].output| && s.actors[a].output[i].Forward? ==>
             var p := s.actors[a].output[i].post;
             p.k < |Received(ls)| && Received(ls)[p.k].to == s.actors[a].id && Received(ls)[p.k].text == p.text
  {
    OutputsAreSubsequence(ls);
    AcceptedIsReceived(ls);
    var s := Exec(INIT, ls);
    if a < |s.actors| {
      forall i | 0 <= i < |s.actors[a].output| && s.actors[a].output[i].Forward?
        ensures Genuine(s, s.actors[a].output[i].post, s.actors[a].id)
      {
      }
    }
  }

  // ----- Why a text was dropped ---------------------------------------------------------------------

  /** The text was for a session that has stopped. */
  ghost predicate RecipientStopped(s: State, k: nat) {
    k < |s.accepted| && exists a :: 0 <= a < |s.actors| && IsStopped(s.actors[a], s.accepted[k].to)
  }

  predicate IsStopped(x: Session, id: Id) {
    x.phase == Stopped && x.id == id
  }

  ghost predicate DeadOk(s: State) {
    forall i :: 0 <= i < |s.dead| ==> RecipientStopped(s, s.dead[i])
  }

  lemma StoppedStays(s: State, l: Label, k: nat)
    requires RecipientStopped(s, k)
    ensures RecipientStopped(Step(s, l), k)
  {
    var t := Step(s, l);
    StepKeepsAccepted(s, l);
    assert t.accepted[k] == s.accepted[k];
    var a :| 0 <= a < |s.actors| && IsStopped(s.actors[a], s.accepted[k].to);
    StoppedIsFinal(s, l, a);
    assert IsStopped(t.actors[a], t.accepted[k].to);
  }

  lemma StoppedIsFinal(s: State, l: Label, a: Addr)
    requires InPhase(s, a, Stopped)
    ensures InPhase(Step(s, l), a, Stopped) && Step(s, l).actors[a].id == s.actors[a].id
  {
  }

  /** What a stop, or a send to a stopped session, adds to the dead texts was for that session. */
  lemma NewlyDead(s: State, l: Label, i: nat)
    requires Lifecycle(s) && Routing(s) && i < |Step(s, l).dead| && i >= |s.dead|
    ensures RecipientStopped(Step(s, l), Step(s, l).dead[i])
  {
    var t := Step(s, l);
    if l.Stop? {
      var x := s.actors[l.a];
      assert Routed(s, x);
      assert Genuine(s, x.mailbox[i - |s.dead|], x.id);
      assert IsStopped(t.actors[l.a], x.id);
    } else {
      var e := s.server[0];
      assert Genuine(s, Post(e.text, e.k), e.to);
      assert IsStopped(t.actors[s.sessions[e.to]], e.to);
    }
  }

  /** In every run, a text counts as dead only if the session it was for has stopped. */
  lemma {:induction false} DeadMeansStopped(ls: seq<Label>)
    ensures DeadOk(Exec(INIT, ls))
  {
    if ls != [] {
      var s, l := Exec(INIT, ls[..|ls| - 1]), ls[|ls| - 1];
      DeadMeansStopped(ls[..|ls| - 1]);
      ExecKeepsLifecycle(INIT, ls[..|ls| - 1]);
      ExecKeepsRouting(INIT, ls[..|ls| - 1]);
      DeadGrows(s, l);
      forall i | 0 <= i < |Step(s, l).dead| ensures RecipientStopped(Step(s, l), Step(s, l).dead[i]) {
        if i < |s.dead| {
          StoppedStays(s, l, s.dead[i]);
        } else {
          NewlyDead(s, l, i);
        }
      }
    }
  }

  lemma DeadGrows(s: State, l: Label)
    ensures s.dead <= Step(s, l).dead
  {
  }

  /** The server takes text `k` off its mailbox and has no session for its addressee. */
  predicate HandledUnmapped(s: State, l: Label, k: nat) {
    && l == ServerHandle && s.server != [] && s.server[0].Send?
    && s.server[0].k == k && s.server[0].to !in s.sessions
  }

  /** In every run, a text counts as unknown only if its addressee was unmapped when it was handled. */
  lemma {:induction false} UnknownMeansUnmapped(ls: seq<Label>, k: nat) returns (n: nat)
    requires k in Exec(INIT, ls).unknown
    ensures n < |ls| && HandledUnmapped(Exec(INIT, ls[..n]), ls[n], k)
  {
    var m := |ls| - 1;
    if k in Exec(INIT, ls[..m]).unknown {
      n := UnknownMeansUnmapped(ls[..m], k);
      assert ls[..m][..n] == ls[..n];
    } else {
      n := m;
    }
  }

  // ----- Runs that take place -----------------------------------------------------------------------

  lemma Take(ls: seq<Label>, s: State, l: Label) returns (ms: seq<Label>, t: State)
    requires s == Exec(INIT, ls)
    ensures ms == ls + [l] && t == Step(s, l) && t == Exec(INIT, ms)
  {
    ms, t := ls + [l], Step(s, l);
    assert ms[..|ls|] == ls;
  }

  function GreetedSession(id: Id): Session {
    Session(id, Running, [], [Hello(Welcome(id))])
  }

  /** A first session, registered and greeted. */
  lemma FirstSession(a: Id) returns (ls: seq<Label>, s: State)
    ensures s == Exec(INIT, ls) && s == State([], map[a := 0], [GreetedSession(a)], [], [], [])
  {
    ls, s := Take([], INIT, Connect(a));
    ls, s := Take(ls, s, Start(0));
    assert s.server == [Register(a, 0)];
    ls, s := Take(ls, s, ServerHandle);
    ls, s := Take(ls, s, Greet(0));
    assert s.actors[0].output == [Hello(Welcome(a))];
    assert s.actors == [GreetedSession(a)] && s.server == [];
  }

  /** A second one, registered but not yet greeted. */
  lemma SecondSession(a: Id, b: Id) returns (ls: seq<Label>, s: State)
    requires a != b
    ensures s == Exec(INIT, ls)
    ensures s == State([], map[a := 0, b := 1], [GreetedSession(a), Session(b, Registering, [], [])], [], [], [])
  {
    ls, s := FirstSession(a);
    ls, s := Take(ls, s, Connect(b));
    ls, s := Take(ls, s, Start(1));
    assert s.server == [Register(b, 1)];
    ls, s := Take(ls, s, ServerHandle);
    assert s.actors == [GreetedSession(a), Session(b, Registering, [], [])] && s.server == [];
  }

  lemma ForwardedFirst(a: Id, b: Id, text: Text) returns (ls: seq<Label>, s: State)
    requires a != b && ServerParse(text) == Some(b)
    ensures s == Exec(INIT, ls) && s.dead == [] && s.unknown == []
    ensures s.actors == [GreetedSession(a), Session(b, Registering, [Post(text, 0)], [])]
  {
    ls, s := SecondSession(a, b);
    ls, s := Take(ls, s, Receive(0, text));
    assert s.server == [Send(b, text, 0)];
    ls, s := Take(ls, s, ServerHandle);
    assert s.actors[1].mailbox == [Post(text, 0)];
  }

  /** A text that the server forwards before `started` has greeted is output right after the
      greeting, and none is dropped. */
  lemma ForwardedBeforeGreeting(a: Id, b: Id, text: Text) returns (ls: seq<Label>, s: State)
    requires a != b && ServerParse(text) == Some(b)
    ensures s == Exec(INIT, ls) && s.dead == [] && s.unknown == []
    ensures |s.actors| == 2 && s.actors[1].output == [Hello(Welcome(b)), Forward(Post(text, 0))]
  {
    ls, s := ForwardedFirst(a, b, text);
    ls, s := Take(ls, s, Greet(1));
    assert s.actors[1].output == [Hello(Welcome(b))];
    ls, s := Take(ls, s, SessionHandle(1));
  }

  lemma StoppedSession(a: Id, b: Id, text: Text) returns (ls: seq<Label>, s: State)
    requires a != b && ServerParse(text) == Some(b)
    ensures s == Exec(INIT, ls) && s.dead == [] && s.unknown == [] && s.sessions == map[a := 0, b := 1]
    ensures s.server == [Send(b, text, 0), Unregister(b)] && |s.accepted| == 1
    ensures s.actors == [GreetedSession(a), GreetedSession(b).(phase := Stopped)]
  {
    ls, s := SecondSession(a, b);
    ls, s := Take(ls, s, Greet(1));
    assert s.actors[1].output == [Hello(Welcome(b))];
    ls, s := Take(ls, s, Receive(0, text));
    ls, s := Take(ls, s, Stop(1));
  }

  /** A text under way to a session that stops is dead. */
  lemma TextToStopped(a: Id, b: Id, text: Text) returns (ls: seq<Label>, s: State)
    requires a != b && ServerParse(text) == Some(b)
    ensures s == Exec(INIT, ls) && s.dead == [0] && s.unknown == [] && s.server == [Unregister(b)]
    ensures s.sessions == map[a := 0, b := 1] && |s.accepted| == 1
    ensures s.actors == [GreetedSession(a), GreetedSession(b).(phase := Stopped)]
  {
    ls, s := StoppedSession(a, b, text);
    ls, s := Take(ls, s, ServerHandle);
  }

  /** One that comes after the removal is unknown. */
  lemma TextAfterRemoval(a: Id, b: Id, text: Text) returns (ls: seq<Label>, s: State)
    requires a != b && ServerParse(text) == Some(b)
    ensures s == Exec(INIT, ls) && s.dead == [0] && s.unknown == [1] && s.sessions == map[a := 0] && s.server == []
  {
    ls, s := TextToStopped(a, b, text);
    ls, s := Take(ls, s, ServerHandle);
    assert s.sessions == map[a := 0] && s.server == [];
    ls, s := Take(ls, s, Receive(0, text));
    assert s.server == [Send(b, text, 1)];
    ls, s := Take(ls, s, ServerHandle);
  }
}
